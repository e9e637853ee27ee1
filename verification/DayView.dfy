// A day of activity over all hosts: group sums, category lists, rankings
// (internal/activity/store.go, internal/server/templates.go, internal/server/handlers.go).

module Rankings {
  import opened Wrappers
  import opened Totals
  import opened Sorting
  import opened Reports

  /** Apps keyed by their own names. */
  predicate NamedByKey(apps: map<string, AppTime>) {
    forall name :: name in apps ==> apps[name].name == name
  }

  // ----- categories -----

  function CategoryKey(app: AppTime): string {
    if app.category.Some? then app.category.value else "Other"
  }

  const MOST_FIRST: (AppTime, AppTime) -> bool := (a: AppTime, b: AppTime) => a.seconds >= b.seconds

  function AppSeconds(apps: map<string, AppTime>): map<string, int> {
    map name | name in apps :: apps[name].seconds
  }

  /** The apps of a category. */
  function InCategory(apps: map<string, AppTime>, category: string): set<AppTime> {
    set name | name in apps && CategoryKey(apps[name]) == category :: apps[name]
  }

  function Categories(apps: map<string, AppTime>): set<string> {
    set name | name in apps :: CategoryKey(apps[name])
  }

  /** Each list holds exactly its category's apps, once each. */
  ghost predicate Partitioned(apps: map<string, AppTime>, byCategory: map<string, seq<AppTime>>) {
    && byCategory.Keys == Categories(apps)
    && forall c :: c in byCategory ==> multiset(byCategory[c]) == multiset(InCategory(apps, c))
  }

  ghost predicate Descending(byCategory: map<string, seq<AppTime>>) {
    forall c :: c in byCategory ==> SortedBy(MOST_FIRST, byCategory[c])
  }

  /** The totals are the sums of the lists, and add up to the sum of all apps. */
  ghost predicate TotalsAgree(apps: map<string, AppTime>, totals: map<string, int>) {
    && totals.Keys == Categories(apps)
    && EachTotal(apps, totals)
    && Sum(totals) == Sum(AppSeconds(apps))
  }

  ghost predicate EachTotal(apps: map<string, AppTime>, totals: map<string, int>) {
    forall c :: CategoryTotal(apps, totals, c)
  }

  ghost predicate CategoryTotal(apps: map<string, AppTime>, totals: map<string, int>, c: string) {
    CountOf(totals, c) == Total(AppSeconds(apps), InCategoryByName(apps, c))
  }

  function InCategoryByName(apps: map<string, AppTime>, category: string): string -> bool {
    (name: string) => name in apps && CategoryKey(apps[name]) == category
  }

  function Append(byCategory: map<string, seq<AppTime>>, app: AppTime): map<string, seq<AppTime>> {
    var c := CategoryKey(app);
    byCategory[c := (if c in byCategory then byCategory[c] else []) + [app]]
  }

  lemma PartitionGrows(apps: map<string, AppTime>, app: AppTime, byCategory: map<string, seq<AppTime>>)
    requires NamedByKey(apps) && app.name !in apps && Partitioned(apps, byCategory)
    ensures Partitioned(apps[app.name := app], Append(byCategory, app))
  {
    var more, after := apps[app.name := app], Append(byCategory, app);
    CategoriesGrow(apps, app);
    forall c | c in after ensures multiset(after[c]) == multiset(InCategory(more, c)) {
      ListGrows(apps, app, byCategory, c);
    }
  }

  lemma ListGrows(apps: map<string, AppTime>, app: AppTime, byCategory: map<string, seq<AppTime>>, c: string)
    requires NamedByKey(apps) && app.name !in apps && Partitioned(apps, byCategory) && c in Append(byCategory, app)
    ensures multiset(Append(byCategory, app)[c]) == multiset(InCategory(apps[app.name := app], c))
  {
    CategoryGrows(apps, app, c);
    if c !in byCategory {
      assert InCategory(apps, c) == {};
    }
  }

  lemma CategoryGrows(apps: map<string, AppTime>, app: AppTime, c: string)
    requires NamedByKey(apps) && app.name !in apps
    ensures InCategory(apps[app.name := app], c) == InCategory(apps, c) + if CategoryKey(app) == c then {app} else {}
    ensures app !in InCategory(apps, c)
  {
    var more := apps[app.name := app];
    assert more[app.name] == app;
    forall x | x in InCategory(apps, c) ensures x in InCategory(more, c) {
      var name :| name in apps && CategoryKey(apps[name]) == c && apps[name] == x;
      assert more[name] == x;
    }
  }

  lemma CategoriesGrow(apps: map<string, AppTime>, app: AppTime)
    requires app.name !in apps
    ensures Categories(apps[app.name := app]) == Categories(apps) + {CategoryKey(app)}
    ensures AppSeconds(apps[app.name := app]) == AppSeconds(apps)[app.name := app.seconds]
  {
    var more := apps[app.name := app];
    assert more[app.name] == app;
    forall c | c in Categories(apps) ensures c in Categories(more) {
      var name :| name in apps && CategoryKey(apps[name]) == c;
      assert more[name] == apps[name];
    }
  }

  lemma TotalsGrow(apps: map<string, AppTime>, app: AppTime, totals: map<string, int>)
    requires app.name !in apps && TotalsAgree(apps, totals)
    ensures TotalsAgree(apps[app.name := app],
                        totals[CategoryKey(app) := CountOf(totals, CategoryKey(app)) + app.seconds])
  {
    var category := CategoryKey(app);
    CategoriesGrow(apps, app);
    SumsGrow(apps, app, totals, category);
    AllTotalsGrow(apps, app, totals);
  }

  lemma AllTotalsGrow(apps: map<string, AppTime>, app: AppTime, totals: map<string, int>)
    requires app.name !in apps && EachTotal(apps, totals)
    ensures EachTotal(apps[app.name := app],
                      totals[CategoryKey(app) := CountOf(totals, CategoryKey(app)) + app.seconds])
  {
    var more := apps[app.name := app];
    var after := totals[CategoryKey(app) := CountOf(totals, CategoryKey(app)) + app.seconds];
    forall c ensures CategoryTotal(more, after, c) {
      assert CategoryTotal(apps, totals, c);
      EachTotalGrows(apps, app, totals, c);
    }
  }

  lemma SumsGrow(apps: map<string, AppTime>, app: AppTime, totals: map<string, int>, category: string)
    requires app.name !in apps && Sum(totals) == Sum(AppSeconds(apps))
    ensures Sum(totals[category := CountOf(totals, category) + app.seconds]) == Sum(AppSeconds(apps[app.name := app]))
  {
    CategoriesGrow(apps, app);
    SumPut(AppSeconds(apps), app.name, app.seconds);
    SumPut(totals, category, CountOf(totals, category) + app.seconds);
  }

  lemma EachTotalGrows(apps: map<string, AppTime>, app: AppTime, totals: map<string, int>, c: string)
    requires app.name !in apps && CategoryTotal(apps, totals, c)
    ensures CategoryTotal(apps[app.name := app],
                          totals[CategoryKey(app) := CountOf(totals, CategoryKey(app)) + app.seconds], c)
  {
    CategoryTotalGrows(apps, app, c);
  }

  lemma CategoryTotalGrows(apps: map<string, AppTime>, app: AppTime, c: string)
    requires app.name !in apps
    ensures var more := apps[app.name := app];
            Total(AppSeconds(more), InCategoryByName(more, c))
            == Total(AppSeconds(apps), InCategoryByName(apps, c)) + if CategoryKey(app) == c then app.seconds else 0
  {
    var more := apps[app.name := app];
    var before := Kept(AppSeconds(apps), InCategoryByName(apps, c));
    var after := Kept(AppSeconds(more), InCategoryByName(more, c));
    assert more[app.name] == app;
    if CategoryKey(app) == c {
      assert after == before[app.name := app.seconds];
      SumPut(before, app.name, app.seconds);
    } else {
      assert after == before;
    }
  }

  lemma NoCategories(none: map<string, AppTime>, lists: map<string, seq<AppTime>>, totals: map<string, int>)
    requires none == map[] && lists == map[] && totals == map[]
    ensures Partitioned(none, lists) && TotalsAgree(none, totals)
  {
  }

  /** The apps that are no longer left to do. */
  function Done(apps: map<string, AppTime>, left: set<string>): map<string, AppTime> {
    map name | name in apps && name !in left :: apps[name]
  }

  lemma DoneGrows(apps: map<string, AppTime>, left: set<string>, name: string)
    requires name in apps && name in left
    ensures Done(apps, left - {name}) == Done(apps, left)[name := apps[name]] && name !in Done(apps, left)
  {
  }

  /** Sorts the apps into lists by category, in whatever order the map yields them, and every
      list in place, most used first. */
  method BuildCategories(apps: map<string, AppTime>)
    returns (byCategory: map<string, seq<AppTime>>, totals: map<string, int>)
    requires NamedByKey(apps)
    ensures Partitioned(apps, byCategory) && Descending(byCategory)
    ensures TotalsAgree(apps, totals)
    ensures ListsByCategory(apps, byCategory) && TotalsByCategory(apps, totals)
  {
    byCategory, totals := map[], map[];
    var todo := apps.Keys;
    assert Done(apps, todo) == map[];
    NoCategories(Done(apps, todo), byCategory, totals);
    while todo != {}
      invariant todo <= apps.Keys
      invariant Partitioned(Done(apps, todo), byCategory) && TotalsAgree(Done(apps, todo), totals)
    {
      var name := Pick(todo);
      var app := apps[name];
      DoneGrows(apps, todo, name);
      PartitionGrows(Done(apps, todo), app, byCategory);
      TotalsGrow(Done(apps, todo), app, totals);
      byCategory := Append(byCategory, app);
      totals := totals[CategoryKey(app) := CountOf(totals, CategoryKey(app)) + app.seconds];
      todo := todo - {name};
    }
    assert Done(apps, todo) == apps;
    byCategory := SortLists(apps, byCategory);
    ListsExact(apps, byCategory);
    TotalsExact(apps, totals);
  }

  method SortLists(apps: map<string, AppTime>, lists: map<string, seq<AppTime>>)
    returns (sorted: map<string, seq<AppTime>>)
    requires Partitioned(apps, lists)
    ensures Partitioned(apps, sorted) && Descending(sorted)
  {
    sorted := lists;
    var todo := lists.Keys;
    while todo != {}
      invariant todo <= lists.Keys == sorted.Keys
      invariant forall c :: c in sorted ==> multiset(sorted[c]) == multiset(lists[c])
      invariant forall c :: c in sorted && c !in todo ==> SortedBy(MOST_FIRST, sorted[c])
    {
      var c := Pick(todo);
      var list := SortList(sorted[c], MOST_FIRST);
      sorted := sorted[c := list];
      todo := todo - {c};
    }
  }

  /** Sorts a list through an array of its elements. */
  method SortList(list: seq<AppTime>, le: (AppTime, AppTime) -> bool) returns (sorted: seq<AppTime>)
    requires TotalPreorder(le)
    ensures SortedBy(le, sorted) && multiset(sorted) == multiset(list)
  {
    var a := new AppTime[|list|](i requires 0 <= i < |list| => list[i]);
    assert a[..] == list;
    SortInPlace(a, le);
    sorted := a[..];
  }

  /** Each app is in one list only, the one of its category. */
  lemma InExactlyOneList(apps: map<string, AppTime>, byCategory: map<string, seq<AppTime>>, name: string, c: string)
    requires NamedByKey(apps) && Partitioned(apps, byCategory) && name in apps && c in byCategory
    ensures multiset(byCategory[c])[apps[name]] == if CategoryKey(apps[name]) == c then 1 else 0
    ensures CategoryKey(apps[name]) in byCategory
  {
  }

  // ----- the same, by the apps' own categories -----

  /** The names of the apps of a category; "Other" takes in the apps without one. */
  function NamesUnder(apps: map<string, AppTime>, c: string): string -> bool {
    (name: string) => name in apps &&
      (apps[name].category == Some(c) || (apps[name].category == None && c == "Other"))
  }

  /** Each app is once in the list of its category, without one in "Other", and in no other list;
      no list holds anything else, and the seconds go down along each. */
  ghost predicate ListsByCategory(apps: map<string, AppTime>, byCategory: map<string, seq<AppTime>>) {
    && (forall name, c :: name in apps && c in byCategory ==>
          multiset(byCategory[c])[apps[name]] == if NamesUnder(apps, c)(name) then 1 else 0)
    && (forall name, c :: name in apps && NamesUnder(apps, c)(name) ==> c in byCategory)
    && (forall c, i :: c in byCategory && 0 <= i < |byCategory[c]| ==>
          byCategory[c][i].name in apps && apps[byCategory[c][i].name] == byCategory[c][i])
    && (forall c, i, j :: c in byCategory && 0 <= i < j < |byCategory[c]| ==>
          byCategory[c][i].seconds >= byCategory[c][j].seconds)
  }

  ghost predicate TotalsByCategory(apps: map<string, AppTime>, totals: map<string, int>) {
    forall c :: CountOf(totals, c) == Total(AppSeconds(apps), NamesUnder(apps, c))
  }

  lemma ListsExact(apps: map<string, AppTime>, byCategory: map<string, seq<AppTime>>)
    requires NamedByKey(apps) && Partitioned(apps, byCategory) && Descending(byCategory)
    ensures ListsByCategory(apps, byCategory)
  {
    forall name, c | name in apps && c in byCategory
      ensures multiset(byCategory[c])[apps[name]] == if NamesUnder(apps, c)(name) then 1 else 0
    {
      InExactlyOneList(apps, byCategory, name, c);
    }
    forall c, i | c in byCategory && 0 <= i < |byCategory[c]|
      ensures byCategory[c][i].name in apps && apps[byCategory[c][i].name] == byCategory[c][i]
    {
      assert byCategory[c][i] in multiset(byCategory[c]);
      assert byCategory[c][i] in InCategory(apps, c);
    }
    forall c, i, j | c in byCategory && 0 <= i < j < |byCategory[c]|
      ensures byCategory[c][i].seconds >= byCategory[c][j].seconds
    {
      assert MOST_FIRST(byCategory[c][i], byCategory[c][j]);
    }
  }

  lemma TotalsExact(apps: map<string, AppTime>, totals: map<string, int>)
    requires TotalsAgree(apps, totals)
    ensures TotalsByCategory(apps, totals)
  {
    forall c ensures CountOf(totals, c) == Total(AppSeconds(apps), NamesUnder(apps, c)) {
      assert CategoryTotal(apps, totals, c);
      SameNamesUnder(apps, c);
    }
  }

  lemma SameNamesUnder(apps: map<string, AppTime>, c: string)
    ensures Total(AppSeconds(apps), NamesUnder(apps, c)) == Total(AppSeconds(apps), InCategoryByName(apps, c))
  {
    assert Kept(AppSeconds(apps), NamesUnder(apps, c)) == Kept(AppSeconds(apps), InCategoryByName(apps, c));
  }

  // ----- ranking -----

  predicate RanksBefore(a: AppTime, b: AppTime) {
    if a.seconds != b.seconds then a.seconds > b.seconds else StringLe(a.name, b.name)
  }

  const BY_RANK: (AppTime, AppTime) -> bool := (a, b) => RanksBefore(a, b)

  lemma RankOrder()
    ensures TotalPreorder(BY_RANK)
  {
    StringOrder();
    forall x, y, z | BY_RANK(x, y) && BY_RANK(y, z) ensures BY_RANK(x, z) {
      assert x.seconds == y.seconds == z.seconds ==> BY_NAME(x.name, y.name) && BY_NAME(y.name, z.name);
    }
    forall x, y ensures BY_RANK(x, y) || BY_RANK(y, x) {
      assert BY_NAME(x.name, y.name) || BY_NAME(y.name, x.name);
    }
  }

  /** The apps that have a category. */
  function Categorised(apps: map<string, AppTime>): set<AppTime> {
    set name | name in apps && apps[name].category.Some? :: apps[name]
  }

  method SortedApps(apps: map<string, AppTime>) returns (sorted: seq<AppTime>)
    requires NamedByKey(apps)
    ensures IsRanking(apps, sorted) && MostUsedFirst(sorted)
    ensures forall app :: app in sorted <==> app.name in apps && apps[app.name] == app && app.category != None
  {
    var list: seq<AppTime> := [];
    var todo := apps.Keys;
    assert Done(apps, todo) == map[];
    while todo != {}
      invariant todo <= apps.Keys
      invariant multiset(list) == multiset(Categorised(Done(apps, todo)))
    {
      var name := Pick(todo);
      DoneGrows(apps, todo, name);
      CategorisedGrows(Done(apps, todo), apps[name]);
      if apps[name].category.Some? {
        list := list + [apps[name]];
      }
      todo := todo - {name};
    }
    assert Done(apps, todo) == apps;
    RankOrder();
    sorted := SortList(list, BY_RANK);
    forall app ensures app in sorted <==> app.name in apps && apps[app.name] == app && app.category != None {
      RankedAreApps(apps, sorted, app);
    }
    forall i, j | 0 <= i < j < |sorted| ensures RankedSo(sorted[i], sorted[j]) {
      assert BY_RANK(sorted[i], sorted[j]);
    }
  }

  /** More seconds, or as many and a name that is not later. */
  predicate RankedSo(a: AppTime, b: AppTime) {
    a.seconds >= b.seconds && (a.seconds == b.seconds ==> StringLe(a.name, b.name))
  }

  ghost predicate MostUsedFirst(sorted: seq<AppTime>) {
    forall i, j :: 0 <= i < j < |sorted| ==> RankedSo(sorted[i], sorted[j])
  }

  ghost predicate IsRanking(apps: map<string, AppTime>, sorted: seq<AppTime>) {
    SortedBy(BY_RANK, sorted) && multiset(sorted) == multiset(Categorised(apps))
  }

  lemma CategorisedGrows(apps: map<string, AppTime>, app: AppTime)
    requires NamedByKey(apps) && app.name !in apps
    ensures Categorised(apps[app.name := app]) == Categorised(apps) + if app.category.Some? then {app} else {}
    ensures app !in Categorised(apps)
  {
    var more := apps[app.name := app];
    assert more[app.name] == app;
    forall x | x in Categorised(apps) ensures x in Categorised(more) {
      var name :| name in apps && apps[name].category.Some? && apps[name] == x;
      assert more[name] == x;
    }
  }

  /** Equal rank means the same app, so there is only one ranking, whatever order the map yields. */
  lemma RankingUnique(apps: map<string, AppTime>, s: seq<AppTime>, t: seq<AppTime>)
    requires NamedByKey(apps) && IsRanking(apps, s) && IsRanking(apps, t)
    ensures s == t
  {
    RankOrder();
    StringOrder();
    SameElements(s, t);
    forall x, y | x in s && y in s && BY_RANK(x, y) && BY_RANK(y, x) ensures x == y {
      RankedAreApps(apps, s, x);
      RankedAreApps(apps, s, y);
      StringLeAntisymmetric(x.name, y.name);
    }
    SortedUnique(BY_RANK, s, t);
  }

  lemma RankedAreApps(apps: map<string, AppTime>, s: seq<AppTime>, x: AppTime)
    requires NamedByKey(apps) && IsRanking(apps, s)
    ensures x in s <==> x.name in apps && apps[x.name] == x && x.category.Some?
  {
    assert x in s <==> x in multiset(s);
    assert x in multiset(Categorised(apps)) <==> x in Categorised(apps);
  }

  function TopFour(s: seq<AppTime>): seq<AppTime> {
    if |s| > 4 then s[..4] else s
  }

  /** An app in the overview ranks strictly before every categorised app that is left out. */
  lemma TopFourCut(apps: map<string, AppTime>, s: seq<AppTime>, kept: AppTime, name: string)
    requires NamedByKey(apps) && IsRanking(apps, s)
    requires kept in TopFour(s)
    requires name in apps && apps[name].category.Some? && apps[name] !in TopFour(s)
    ensures |TopFour(s)| == 4
    ensures BY_RANK(kept, apps[name]) && !BY_RANK(apps[name], kept)
    ensures RankedSo(kept, apps[name]) && kept.name != name
  {
    var dropped := apps[name];
    RankedAreApps(apps, s, dropped);
    RankedAreApps(apps, s, kept);
    var i :| 0 <= i < |TopFour(s)| && s[i] == kept;
    var j :| 0 <= j < |s| && s[j] == dropped;
    assert forall k :: 0 <= k < |TopFour(s)| ==> TopFour(s)[k] == s[k] && s[k] in TopFour(s);
    assert i < j && BY_RANK(s[i], s[j]);
    if BY_RANK(dropped, kept) {
      StringLeAntisymmetric(kept.name, dropped.name);
    }
  }
}

module DayView {
  import opened Wrappers
  import opened Totals
  import opened Reports
  import opened ActivityTables
  import opened ActivityStores
  import opened Ledger
  import Rankings

  // ----- GROUP BY user, app and GROUP BY user -----

  /** One row of the grouped query; its category is that of any row of the group. */
  datatype Group = Group(category: Option<string>, seconds: int)

  /** Some row of the date, not left to do, belongs to the user's app. */
  ghost predicate HasRows(rows: map<AppKey, Row>, left: set<AppKey>, date: string, c: UserApp) {
    exists k :: k in rows && k !in left && DayApp(date, c)(k)
  }

  ghost predicate IsGroup(rows: map<AppKey, Row>, left: set<AppKey>, date: string, c: UserApp, g: Group) {
    && g.seconds == Total(Except(RowSeconds(rows), left), DayApp(date, c))
    && exists k :: k in rows && DayApp(date, c)(k) && rows[k].category == g.category
  }

  /** The rows of a date but for those left, summed by user and app. */
  ghost predicate Groups(rows: map<AppKey, Row>, left: set<AppKey>, date: string, groups: map<UserApp, Group>) {
    && (forall c :: c in groups <==> HasRows(rows, left, date, c))
    && forall c :: c in groups ==> IsGroup(rows, left, date, c, groups[c])
  }

  lemma TotalExcept<K>(m: map<K, int>, left: set<K>, k: K, keep: K -> bool)
    requires k in m && k in left
    ensures Total(Except(m, left - {k}), keep) == Total(Except(m, left), keep) + if keep(k) then m[k] else 0
  {
    assert Except(m, left - {k}) == Except(m, left)[k := m[k]];
    TotalPut(Except(m, left), keep, k, m[k]);
  }

  /** Taking in one more row changes only its own group. */
  lemma OneMoreRow(rows: map<AppKey, Row>, left: set<AppKey>, date: string, groups: map<UserApp, Group>, k: AppKey,
                   after: map<UserApp, Group>, category: Option<string>)
    requires Groups(rows, left, date, groups) && k in rows && k in left
    requires var c := UserApp(k.user, k.app);
             if k.date == date then
               && (category == rows[k].category || (c in groups && category == groups[c].category))
               && after == groups[c := Group(category, rows[k].seconds + if c in groups then groups[c].seconds else 0)]
             else after == groups
    ensures Groups(rows, left - {k}, date, after)
  {
    forall c ensures c in after <==> HasRows(rows, left - {k}, date, c) {
      MoreHasRows(rows, left, date, k, c);
    }
    forall c | c in after ensures IsGroup(rows, left - {k}, date, c, after[c]) {
      TotalExcept(RowSeconds(rows), left, k, DayApp(date, c));
      if c !in groups {
        assert !HasRows(rows, left, date, c);
        TotalNone(Except(RowSeconds(rows), left), DayApp(date, c));
      }
    }
  }

  lemma MoreHasRows(rows: map<AppKey, Row>, left: set<AppKey>, date: string, k: AppKey, c: UserApp)
    requires k in rows && k in left
    ensures HasRows(rows, left - {k}, date, c) <==> HasRows(rows, left, date, c) || DayApp(date, c)(k)
  {
  }

  lemma NoRows(rows: map<AppKey, Row>, date: string)
    ensures Groups(rows, rows.Keys, date, map[])
  {
  }

  method QueryApps(rows: map<AppKey, Row>, date: string) returns (groups: map<UserApp, Group>)
    ensures Groups(rows, {}, date, groups)
  {
    groups := map[];
    var todo := rows.Keys;
    NoRows(rows, date);
    while todo != {}
      invariant todo <= rows.Keys
      invariant Groups(rows, todo, date, groups)
    {
      var k := Pick(todo);
      var c := UserApp(k.user, k.app);
      ghost var before := groups;
      var category := rows[k].category;
      if k.date == date {
        var sum := rows[k].seconds;
        if c in groups {
          sum := sum + groups[c].seconds;
          if * {
            category := groups[c].category;
          }
        }
        groups := groups[c := Group(category, sum)];
      }
      OneMoreRow(rows, todo, date, before, k, groups, category);
      todo := todo - {k};
    }
  }

  method QueryScreen(screen: map<ScreenKey, int>, date: string) returns (sums: map<string, int>)
    ensures ScreenSums(screen, {}, date, sums)
  {
    sums := map[];
    var todo := screen.Keys;
    NoScreen(screen, date);
    while todo != {}
      invariant todo <= screen.Keys
      invariant ScreenSums(screen, todo, date, sums)
    {
      var k := Pick(todo);
      ghost var before := sums;
      if k.date == date {
        sums := sums[k.user := CountOf(sums, k.user) + screen[k]];
      }
      OneMoreScreen(screen, todo, date, before, k, sums);
      todo := todo - {k};
    }
  }

  ghost predicate ScreenSums(screen: map<ScreenKey, int>, left: set<ScreenKey>, date: string, sums: map<string, int>) {
    && (forall u :: CountOf(sums, u) == Total(Except(screen, left), DayScreen(date, u)))
    && forall u :: u in sums <==> HasScreen(screen, left, date, u)
  }

  ghost predicate HasScreen(screen: map<ScreenKey, int>, left: set<ScreenKey>, date: string, u: string) {
    exists k :: k in screen && k !in left && DayScreen(date, u)(k)
  }

  lemma NoScreen(screen: map<ScreenKey, int>, date: string)
    ensures ScreenSums(screen, screen.Keys, date, map[])
  {
  }

  lemma OneMoreScreen(screen: map<ScreenKey, int>, left: set<ScreenKey>, date: string, sums: map<string, int>,
                      k: ScreenKey, after: map<string, int>)
    requires ScreenSums(screen, left, date, sums) && k in screen && k in left
    requires after == if k.date == date then sums[k.user := CountOf(sums, k.user) + screen[k]] else sums
    ensures ScreenSums(screen, left - {k}, date, after)
  {
    forall u ensures CountOf(after, u) == Total(Except(screen, left - {k}), DayScreen(date, u)) {
      TotalExcept(screen, left, k, DayScreen(date, u));
    }
    forall u ensures u in after <==> HasScreen(screen, left - {k}, date, u) {
      MoreHasScreen(screen, left, date, k, u);
    }
  }

  lemma MoreHasScreen(screen: map<ScreenKey, int>, left: set<ScreenKey>, date: string, k: ScreenKey, u: string)
    requires k in screen && k in left
    ensures HasScreen(screen, left - {k}, date, u) <==> HasScreen(screen, left, date, u) || DayScreen(date, u)(k)
  {
  }

  // ----- the day -----

  datatype UserActivity = UserActivity(apps: map<string, AppTime>, screenTime: int,
                                       byCategory: map<string, seq<AppTime>>,
                                       categoryTotals: map<string, int>)

  /** The user's apps of the date, each with its sum over all hosts. */
  ghost predicate AppSums(rows: map<AppKey, Row>, icons: map<string, string>, date: string, u: string,
                          apps: map<string, AppTime>) {
    && (forall a :: a in apps <==> HasRows(rows, {}, date, UserApp(u, a)))
    && forall a :: a in apps ==> IsAppSum(rows, icons, date, u, a, apps[a])
  }

  /** The sum over all hosts, a category of one of the rows, and the icon that is on file. */
  ghost predicate IsAppSum(rows: map<AppKey, Row>, icons: map<string, string>, date: string, u: string, a: string,
                           app: AppTime) {
    && app.name == a
    && app.seconds == Total(RowSeconds(rows), DayApp(date, UserApp(u, a)))
    && (exists k :: k in rows && DayApp(date, UserApp(u, a))(k) && rows[k].category == app.category)
    && app.icon == if a in icons then Some(icons[a]) else None
  }

  /** Apps and screen time are the sums over all hosts; the category lists partition the apps,
      most used first, with totals that add up. */
  ghost predicate IsDay(rows: map<AppKey, Row>, screen: map<ScreenKey, int>, icons: map<string, string>, date: string,
                        u: string, day: UserActivity) {
    && AppSums(rows, icons, date, u, day.apps)
    && day.screenTime == Total(screen, DayScreen(date, u))
    && Rankings.Partitioned(day.apps, day.byCategory) && Rankings.Descending(day.byCategory)
    && Rankings.TotalsAgree(day.apps, day.categoryTotals)
    && Rankings.ListsByCategory(day.apps, day.byCategory)
    && Rankings.TotalsByCategory(day.apps, day.categoryTotals)
  }

  ghost predicate Appears(rows: map<AppKey, Row>, screen: map<ScreenKey, int>, date: string, u: string) {
    (exists a :: HasRows(rows, {}, date, UserApp(u, a))) || HasScreen(screen, {}, date, u)
  }

  method GetDay(store: ActivityStore, date: string) returns (day: map<string, UserActivity>)
    ensures forall u :: u in day <==> Appears(store.rows, store.screen, date, u)
    ensures forall u :: u in day ==> IsDay(store.rows, store.screen, store.icons, date, u, day[u])
  {
    var groups := QueryApps(store.rows, date);
    var sums := QueryScreen(store.screen, date);
    var users := (set c | c in groups :: c.user) + sums.Keys;
    forall u ensures u in users <==> Appears(store.rows, store.screen, date, u) {
      UserAppears(store.rows, store.screen, date, groups, sums, u);
    }
    day := GetUsers(store.rows, store.screen, store.icons, date, groups, sums, users);
  }

  lemma UserAppears(rows: map<AppKey, Row>, screen: map<ScreenKey, int>, date: string, groups: map<UserApp, Group>,
                    sums: map<string, int>, u: string)
    requires Groups(rows, {}, date, groups) && ScreenSums(screen, {}, date, sums)
    ensures u in (set c | c in groups :: c.user) + sums.Keys <==> Appears(rows, screen, date, u)
  {
  }

  method GetUsers(rows: map<AppKey, Row>, screen: map<ScreenKey, int>, icons: map<string, string>, date: string,
                  groups: map<UserApp, Group>, sums: map<string, int>, users: set<string>)
    returns (day: map<string, UserActivity>)
    requires Groups(rows, {}, date, groups) && ScreenSums(screen, {}, date, sums)
    ensures day.Keys == users
    ensures forall u :: u in day ==> IsDay(rows, screen, icons, date, u, day[u])
  {
    day := map[];
    var todo := users;
    while todo != {}
      invariant todo <= users && day.Keys == users - todo
      invariant forall u :: u in day ==> IsDay(rows, screen, icons, date, u, day[u])
    {
      var u := Pick(todo);
      var activity := GetUser(rows, screen, icons, date, groups, sums, u);
      day := day[u := activity];
      todo := todo - {u};
    }
  }

  method GetUser(rows: map<AppKey, Row>, screen: map<ScreenKey, int>, icons: map<string, string>, date: string,
                 groups: map<UserApp, Group>, sums: map<string, int>, u: string)
    returns (day: UserActivity)
    requires Groups(rows, {}, date, groups) && ScreenSums(screen, {}, date, sums)
    ensures IsDay(rows, screen, icons, date, u, day)
  {
    var apps := GetApps(rows, icons, date, groups, u);
    ExceptNone(screen);
    var byCategory, totals := Rankings.BuildCategories(apps);
    day := UserActivity(apps, CountOf(sums, u), byCategory, totals);
  }

  method GetApps(rows: map<AppKey, Row>, icons: map<string, string>, date: string, groups: map<UserApp, Group>,
                 u: string)
    returns (apps: map<string, AppTime>)
    requires Groups(rows, {}, date, groups)
    ensures AppSums(rows, icons, date, u, apps) && Rankings.NamedByKey(apps)
  {
    var names := set c | c in groups && c.user == u :: c.app;
    ExceptNone(RowSeconds(rows));
    forall a ensures a in names <==> UserApp(u, a) in groups {
      if UserApp(u, a) in groups {
        assert UserApp(u, a).app == a;
      }
    }
    apps := map a | a in names ::
      AppTime(a, groups[UserApp(u, a)].category, if a in icons then Some(icons[a]) else None,
              groups[UserApp(u, a)].seconds);
    forall a | a in apps ensures IsAppSum(rows, icons, date, u, a, apps[a]) {
      assert IsGroup(rows, {}, date, UserApp(u, a), groups[UserApp(u, a)]);
    }
  }

  predicate WithinScreenTime(day: UserActivity) {
    forall a :: a in day.apps ==> day.apps[a].seconds <= day.screenTime
  }

  /** On tables that keep every row's app time within its screen time, so does the day. */
  lemma DayWithinScreenTime(rows: map<AppKey, Row>, screen: map<ScreenKey, int>, icons: map<string, string>,
                            date: string, u: string, day: UserActivity)
    requires IsDay(rows, screen, icons, date, u, day)
    requires RowsBounded(Tables(RowSeconds(rows), screen))
    ensures WithinScreenTime(day)
  {
    forall a | a in day.apps ensures day.apps[a].seconds <= day.screenTime {
      assert IsAppSum(rows, icons, date, u, a, day.apps[a]);
      DayBounded(Tables(RowSeconds(rows), screen), date, UserApp(u, a));
    }
  }
}
