// The server's tables: upserting the seconds, categories and icons of a report
// (internal/activity/store.go).

module ActivityTables {
  import opened Wrappers
  import opened Totals
  import opened Reports

  datatype AppKey = AppKey(date: string, host: string, user: string, app: string)

  datatype ScreenKey = ScreenKey(date: string, host: string, user: string)

  /** Seconds by the tables' primary keys. */
  datatype Tables = Tables(apps: map<AppKey, int>, screen: map<ScreenKey, int>)

  function AppKeys(date: string, host: string, counts: map<UserApp, int>): (keys: set<AppKey>)
    ensures forall k :: k in keys <==> k.date == date && k.host == host && UserApp(k.user, k.app) in counts
  {
    set c | c in counts :: AppKey(date, host, c.user, c.app)
  }

  function StampApps(date: string, host: string, counts: map<UserApp, int>): map<AppKey, int> {
    map k | k in AppKeys(date, host, counts) :: counts[UserApp(k.user, k.app)]
  }

  function ScreenKeys(date: string, host: string, counts: map<string, int>): (keys: set<ScreenKey>)
    ensures forall k :: k in keys <==> k.date == date && k.host == host && k.user in counts
  {
    set user | user in counts :: ScreenKey(date, host, user)
  }

  function StampScreen(date: string, host: string, counts: map<string, int>): map<ScreenKey, int> {
    map k | k in ScreenKeys(date, host, counts) :: counts[k.user]
  }

  /** The tables after a report was recorded under one date. */
  function Recorded(t: Tables, date: string, host: string, r: Tracked): Tables {
    Tables(Added(t.apps, StampApps(date, host, r.apps)), Added(t.screen, StampScreen(date, host, r.screen)))
  }

  lemma StampAppsAt(date: string, host: string, counts: map<UserApp, int>, k: AppKey)
    ensures k in StampApps(date, host, counts) <==> k.date == date && k.host == host && UserApp(k.user, k.app) in counts
    ensures CountOf(StampApps(date, host, counts), k)
            == if k.date == date && k.host == host then CountOf(counts, UserApp(k.user, k.app)) else 0
  {
  }

  lemma StampScreenAt(date: string, host: string, counts: map<string, int>, k: ScreenKey)
    ensures k in StampScreen(date, host, counts) <==> k.date == date && k.host == host && k.user in counts
    ensures CountOf(StampScreen(date, host, counts), k)
            == if k.date == date && k.host == host then CountOf(counts, k.user) else 0
  {
  }

  lemma StampAppsAdded(date: string, host: string, a: map<UserApp, int>, b: map<UserApp, int>)
    ensures StampApps(date, host, Added(a, b)) == Added(StampApps(date, host, a), StampApps(date, host, b))
  {
    var left, right := StampApps(date, host, Added(a, b)), Added(StampApps(date, host, a), StampApps(date, host, b));
    forall k ensures (k in left <==> k in right) && CountOf(left, k) == CountOf(right, k) {
      StampAppsAt(date, host, Added(a, b), k);
      StampAppsAt(date, host, a, k);
      StampAppsAt(date, host, b, k);
      AddedAt(StampApps(date, host, a), StampApps(date, host, b), k);
      AddedAt(a, b, UserApp(k.user, k.app));
    }
    SameCounts(left, right);
  }

  /** One app of one user. */
  lemma StampOne(date: string, host: string, user: string, app: string, seconds: int)
    ensures StampApps(date, host, Keyed(user, map[app := seconds])) == map[AppKey(date, host, user, app) := seconds]
  {
  }

  lemma StampScreenAdded(date: string, host: string, a: map<string, int>, b: map<string, int>)
    ensures StampScreen(date, host, Added(a, b)) == Added(StampScreen(date, host, a), StampScreen(date, host, b))
  {
    var left := StampScreen(date, host, Added(a, b));
    var right := Added(StampScreen(date, host, a), StampScreen(date, host, b));
    forall k ensures (k in left <==> k in right) && CountOf(left, k) == CountOf(right, k) {
      StampScreenAt(date, host, Added(a, b), k);
      StampScreenAt(date, host, a, k);
      StampScreenAt(date, host, b, k);
      AddedAt(StampScreen(date, host, a), StampScreen(date, host, b), k);
      AddedAt(a, b, k.user);
    }
    SameCounts(left, right);
  }

  lemma StampOneScreen(date: string, host: string, user: string, seconds: int)
    ensures StampScreen(date, host, map[user := seconds]) == map[ScreenKey(date, host, user) := seconds]
  {
  }

  lemma KeyedAdded(user: string, d: map<string, int>, e: map<string, int>)
    ensures Keyed(user, Added(d, e)) == Added(Keyed(user, d), Keyed(user, e))
  {
    var one := map[user := d];
    assert Get(one, user) == d;
    SpreadAdd(one, user, e);
    assert one[user := Added(d, e)] == map[user := Added(d, e)];
  }
}

module ActivityStores {
  import opened Wrappers
  import opened Totals
  import opened Reports
  import opened ActivityTables

  /** A row of the app table; its category may be NULL. */
  datatype Row = Row(category: Option<string>, seconds: int)

  datatype Status = Status(status: string, hostname: string)

  function RowSeconds(rows: map<AppKey, Row>): map<AppKey, int> {
    map k | k in rows :: rows[k].seconds
  }

  /** INSERT ... ON CONFLICT DO UPDATE: adds the seconds and keeps the newer category that is not NULL. */
  function Upsert(rows: map<AppKey, Row>, k: AppKey, category: Option<string>, seconds: int): map<AppKey, Row> {
    if k in rows then
      rows[k := Row(if category.Some? then category else rows[k].category, rows[k].seconds + seconds)]
    else rows[k := Row(category, seconds)]
  }

  lemma UpsertAdds(rows: map<AppKey, Row>, k: AppKey, category: Option<string>, seconds: int)
    ensures RowSeconds(Upsert(rows, k, category, seconds)) == Added(RowSeconds(rows), map[k := seconds])
  {
  }

  // ----- categories and icons -----

  function CategoryOf(rows: map<AppKey, Row>, k: AppKey): Option<string> {
    if k in rows then rows[k].category else None
  }

  /** The last category listed for an app, or the one before if none is. */
  function LastCategory(apps: seq<AppTime>, name: string, before: Option<string>): Option<string> {
    if apps == [] then before
    else
      var last := apps[|apps| - 1];
      if last.name == name && last.category.Some? then last.category
      else LastCategory(apps[..|apps| - 1], name, before)
  }

  /** The category at the last place in the list that gives one for the app. */
  lemma {:induction false} LastCategoryExact(apps: seq<AppTime>, name: string, before: Option<string>)
    ensures var last := LastCategory(apps, name, before);
            || (last == before && forall i :: 0 <= i < |apps| && apps[i].name == name ==> apps[i].category == None)
            || exists i :: GivesLast(apps, name, i) && apps[i].category == last
  {
    if apps != [] {
      var n := |apps| - 1;
      LastCategoryExact(apps[..n], name, before);
      if apps[n].name == name && apps[n].category.Some? {
        assert GivesLast(apps, name, n);
      } else if i :| GivesLast(apps[..n], name, i) && apps[..n][i].category == LastCategory(apps[..n], name, before) {
        assert GivesLast(apps, name, i);
      }
    }
  }

  predicate GivesLast(apps: seq<AppTime>, name: string, i: int) {
    && 0 <= i < |apps| && apps[i].name == name && apps[i].category != None
    && forall j :: i < j < |apps| && apps[j].name == name ==> apps[j].category == None
  }

  /** The category of a row after the listed users' apps are recorded. */
  ghost function NewCategory(rows: map<AppKey, Row>, date: string, host: string, users: map<string, seq<AppTime>>,
                             k: AppKey): Option<string> {
    if k.date == date && k.host == host && k.user in users then LastCategory(users[k.user], k.app, CategoryOf(rows, k))
    else CategoryOf(rows, k)
  }

  ghost function IconsListed(apps: seq<AppTime>, name: string): set<string> {
    set app | app in apps && app.name == name && app.icon.Some? :: app.icon.value
  }

  ghost function IconsReported(users: map<string, seq<AppTime>>, todo: set<string>, name: string): set<string> {
    set user, icon | user in users && user !in todo && icon in IconsListed(users[user], name) :: icon
  }

  /** An icon is one of those reported for the app, or what it was if none was reported. */
  ghost predicate IconFrom(before: map<string, string>, after: map<string, string>, name: string,
                           reported: set<string>) {
    if reported == {} then (name in after <==> name in before) && (name in after ==> after[name] == before[name])
    else name in after && after[name] in reported
  }

  ghost predicate IconsListedFrom(before: map<string, string>, after: map<string, string>, apps: seq<AppTime>) {
    forall name :: IconFrom(before, after, name, IconsListed(apps, name))
  }

  ghost predicate IconsFrom(before: map<string, string>, after: map<string, string>, users: map<string, seq<AppTime>>,
                            todo: set<string>) {
    forall name :: IconFrom(before, after, name, IconsReported(users, todo, name))
  }

  ghost predicate CategoriesFrom(before: map<AppKey, Row>, after: map<AppKey, Row>, date: string, host: string,
                                 users: map<string, seq<AppTime>>) {
    forall k :: CategoryOf(after, k) == NewCategory(before, date, host, users, k)
  }

  function PutIcon(icons: map<string, string>, app: AppTime): map<string, string> {
    if app.icon.Some? then icons[app.name := app.icon.value] else icons
  }

  lemma NoIconsYet(icons: map<string, string>, users: map<string, seq<AppTime>>)
    ensures IconsListedFrom(icons, icons, []) && IconsFrom(icons, icons, users, users.Keys)
  {
  }

  lemma NoCategoriesYet(rows: map<AppKey, Row>, date: string, host: string, user: string)
    ensures CategoriesFrom(rows, rows, date, host, map[user := []]) && CategoriesFrom(rows, rows, date, host, map[])
  {
  }

  lemma IconStep(start: map<string, string>, icons: map<string, string>, apps: seq<AppTime>, i: nat)
    requires i < |apps| && IconsListedFrom(start, icons, apps[..i])
    ensures IconsListedFrom(start, PutIcon(icons, apps[i]), apps[..i + 1])
  {
    var after := PutIcon(icons, apps[i]);
    var listed := apps[..i + 1];
    assert listed == apps[..i] + [apps[i]];
    forall name ensures IconFrom(start, after, name, IconsListed(listed, name)) {
      assert IconsListed(listed, name)
             == IconsListed(apps[..i], name)
                + if apps[i].name == name && apps[i].icon.Some? then {apps[i].icon.value} else {};
      assert IconFrom(start, icons, name, IconsListed(apps[..i], name));
    }
  }

  lemma IconsJoin(start: map<string, string>, icons: map<string, string>, after: map<string, string>,
                  users: map<string, seq<AppTime>>, todo: set<string>, user: string)
    requires user in users && user in todo
    requires IconsFrom(start, icons, users, todo) && IconsListedFrom(icons, after, users[user])
    ensures IconsFrom(start, after, users, todo - {user})
  {
    forall name ensures IconFrom(start, after, name, IconsReported(users, todo - {user}, name)) {
      assert IconsReported(users, todo - {user}, name)
             == IconsReported(users, todo, name) + IconsListed(users[user], name);
      assert IconFrom(start, icons, name, IconsReported(users, todo, name));
      assert IconFrom(icons, after, name, IconsListed(users[user], name));
    }
  }

  lemma CategoryStep(start: map<AppKey, Row>, rows: map<AppKey, Row>, date: string, host: string, user: string,
                     apps: seq<AppTime>, i: nat)
    requires i < |apps| && CategoriesFrom(start, rows, date, host, map[user := apps[..i]])
    ensures CategoriesFrom(start,
                           Upsert(rows, AppKey(date, host, user, apps[i].name), apps[i].category, apps[i].seconds),
                           date, host, map[user := apps[..i + 1]])
  {
    var after := Upsert(rows, AppKey(date, host, user, apps[i].name), apps[i].category, apps[i].seconds);
    assert apps[..i + 1][..i] == apps[..i];
    forall k ensures CategoryOf(after, k) == NewCategory(start, date, host, map[user := apps[..i + 1]], k) {
      assert CategoryOf(rows, k) == NewCategory(start, date, host, map[user := apps[..i]], k);
    }
  }

  lemma CategoriesJoin(start: map<AppKey, Row>, rows: map<AppKey, Row>, after: map<AppKey, Row>, date: string,
                       host: string, users: map<string, seq<AppTime>>, todo: set<string>, user: string)
    requires user in users && user in todo
    requires CategoriesFrom(start, rows, date, host, users - todo)
    requires CategoriesFrom(rows, after, date, host, map[user := users[user]])
    ensures CategoriesFrom(start, after, date, host, users - (todo - {user}))
  {
  }

  function StatusesOf(report: Report): map<string, Status> {
    map user | user in report.sessions :: Status(report.sessions[user], report.hostname)
  }

  class ActivityStore {
    var rows: map<AppKey, Row>
    var screen: map<ScreenKey, int>
    var icons: map<string, string>
    var statuses: map<string, Status>

    function View(): Tables
      reads this
    {
      Tables(RowSeconds(rows), screen)
    }

    constructor ()
      ensures View() == Tables(map[], map[])
    {
      rows, screen, icons, statuses := map[], map[], map[], map[];
    }

    /** One transaction: all of a report under one date, or nothing of it. */
    method Record(report: Report, date: string, commits: bool) returns (ok: bool)
      modifies this
      ensures ok == commits
      ensures ok ==> View() == Recorded(old(View()), date, report.hostname, Content(report))
      ensures ok ==> CategoriesFrom(old(rows), rows, date, report.hostname, report.users)
      ensures ok ==> IconsFrom(old(icons), icons, report.users, {})
      ensures ok ==> statuses == old(statuses) + StatusesOf(report)
      ensures !ok ==> unchanged(this)
    {
      var newRows, newIcons := RecordApps(report, date);
      var newScreen := RecordScreen(report, date);
      if !commits {
        return false;
      }
      rows, icons, screen := newRows, newIcons, newScreen;
      NoteSessions(report);
      return true;
    }

    method NoteSessions(report: Report)
      modifies this`statuses
      ensures statuses == old(statuses) + StatusesOf(report)
    {
      var todo := report.sessions.Keys;
      while todo != {}
        invariant todo <= report.sessions.Keys
        invariant statuses == old(statuses) + (map u | u in report.sessions && u !in todo :: StatusesOf(report)[u])
      {
        var username := Pick(todo);
        statuses := statuses[username := Status(report.sessions[username], report.hostname)];
        todo := todo - {username};
      }
    }

    method RecordApps(report: Report, date: string) returns (newRows: map<AppKey, Row>, newIcons: map<string, string>)
      ensures RowSeconds(newRows) == Added(RowSeconds(rows), StampApps(date, report.hostname, Content(report).apps))
      ensures CategoriesFrom(rows, newRows, date, report.hostname, report.users)
      ensures IconsFrom(icons, newIcons, report.users, {})
    {
      newRows, newIcons := rows, icons;
      var todo := report.users.Keys;
      NoUserDone(report, date);
      while todo != {}
        invariant todo <= report.users.Keys && UsersDone(report, date, newRows, newIcons, todo)
      {
        var username := Pick(todo);
        var rows1, icons1 := RecordUser(newRows, newIcons, date, report.hostname, username, report.users[username]);
        UserDone(report, date, newRows, newIcons, rows1, icons1, todo, username);
        newRows, newIcons, todo := rows1, icons1, todo - {username};
      }
      AllUsersDone(report, date, newRows, newIcons);
    }

    /** The tables with all users but those left to do. */
    ghost predicate UsersDone(report: Report, date: string, newRows: map<AppKey, Row>, newIcons: map<string, string>,
                              todo: set<string>)
      reads this
    {
      && RowSeconds(newRows) == AppsDone(RowSeconds(rows), date, report.hostname, PerUser(report.users), todo)
      && CategoriesFrom(rows, newRows, date, report.hostname, report.users - todo)
      && IconsFrom(icons, newIcons, report.users, todo)
    }

    lemma NoUserDone(report: Report, date: string)
      ensures UsersDone(report, date, rows, icons, report.users.Keys)
    {
      FirstUser(RowSeconds(rows), date, report.hostname, PerUser(report.users));
      assert report.users - report.users.Keys == map[];
      NoCategoriesYet(rows, date, report.hostname, "");
      NoIconsYet(icons, report.users);
    }

    lemma UserDone(report: Report, date: string, newRows: map<AppKey, Row>, newIcons: map<string, string>,
                   rows1: map<AppKey, Row>, icons1: map<string, string>, todo: set<string>, username: string)
      requires username in report.users && username in todo && UsersDone(report, date, newRows, newIcons, todo)
      requires UserRecorded(newRows, newIcons, rows1, icons1, date, report.hostname, username, report.users[username])
      ensures UsersDone(report, date, rows1, icons1, todo - {username})
    {
      NextUser(RowSeconds(rows), date, report.hostname, PerUser(report.users), todo, username);
      CategoriesJoin(rows, newRows, rows1, date, report.hostname, report.users, todo, username);
      IconsJoin(icons, newIcons, icons1, report.users, todo, username);
    }

    lemma AllUsersDone(report: Report, date: string, newRows: map<AppKey, Row>, newIcons: map<string, string>)
      requires UsersDone(report, date, newRows, newIcons, {})
      ensures RowSeconds(newRows) == Added(RowSeconds(rows), StampApps(date, report.hostname, Content(report).apps))
      ensures CategoriesFrom(rows, newRows, date, report.hostname, report.users)
    {
      ExceptNoRows(PerUser(report.users));
      assert report.users - {} == report.users;
    }

    /** The counts after all users but those left to do. */
    ghost function AppsDone(start: map<AppKey, int>, date: string, host: string, perUser: map<string, map<string, int>>,
                            todo: set<string>): map<AppKey, int> {
      Added(start, StampApps(date, host, Spread(ExceptRows(perUser, todo))))
    }

    lemma FirstUser(start: map<AppKey, int>, date: string, host: string, perUser: map<string, map<string, int>>)
      ensures AppsDone(start, date, host, perUser, perUser.Keys) == start
    {
    }

    lemma NextUser(start: map<AppKey, int>, date: string, host: string, perUser: map<string, map<string, int>>,
                   todo: set<string>, username: string)
      requires username in perUser && username in todo
      ensures AppsDone(start, date, host, perUser, todo - {username})
              == Added(AppsDone(start, date, host, perUser, todo),
                       StampApps(date, host, Keyed(username, perUser[username])))
    {
      var before, next := Spread(ExceptRows(perUser, todo)), Keyed(username, perUser[username]);
      ExceptRowsGrows(perUser, todo, username);
      StampAppsAdded(date, host, before, next);
      AddedAssociative(start, StampApps(date, host, before), StampApps(date, host, next));
    }

    method RecordUser(rows: map<AppKey, Row>, icons: map<string, string>, date: string, host: string, username: string,
                      apps: seq<AppTime>)
      returns (newRows: map<AppKey, Row>, newIcons: map<string, string>)
      ensures UserRecorded(rows, icons, newRows, newIcons, date, host, username, apps)
    {
      newRows, newIcons := rows, icons;
      NothingRecorded(rows, icons, date, host, username);
      assert apps[..0] == [];
      for i := 0 to |apps|
        invariant UserRecorded(rows, icons, newRows, newIcons, date, host, username, apps[..i])
      {
        AppRecorded(rows, icons, newRows, newIcons, date, host, username, apps, i);
        newRows := Upsert(newRows, AppKey(date, host, username, apps[i].name), apps[i].category, apps[i].seconds);
        newIcons := PutIcon(newIcons, apps[i]);
      }
      assert apps[..|apps|] == apps;
    }

    /** A user's listed apps are in the tables: their seconds, categories and icons. */
    ghost predicate UserRecorded(rows: map<AppKey, Row>, icons: map<string, string>, newRows: map<AppKey, Row>,
                                 newIcons: map<string, string>, date: string, host: string, username: string,
                                 apps: seq<AppTime>) {
      && RowSeconds(newRows) == Added(RowSeconds(rows), StampApps(date, host, Keyed(username, ListSeconds(apps))))
      && CategoriesFrom(rows, newRows, date, host, map[username := apps])
      && IconsListedFrom(icons, newIcons, apps)
    }

    lemma NothingRecorded(rows: map<AppKey, Row>, icons: map<string, string>, date: string, host: string,
                          username: string)
      ensures UserRecorded(rows, icons, rows, icons, date, host, username, [])
    {
      NoIconsYet(icons, map[]);
      NoCategoriesYet(rows, date, host, username);
      NoSecondsYet(RowSeconds(rows), date, host, username);
    }

    lemma NoSecondsYet(seconds: map<AppKey, int>, date: string, host: string, username: string)
      ensures seconds == Added(seconds, StampApps(date, host, Keyed(username, ListSeconds([]))))
    {
    }

    lemma AppRecorded(rows: map<AppKey, Row>, icons: map<string, string>, newRows: map<AppKey, Row>,
                      newIcons: map<string, string>, date: string, host: string, username: string,
                      apps: seq<AppTime>, i: nat)
      requires i < |apps| && UserRecorded(rows, icons, newRows, newIcons, date, host, username, apps[..i])
      ensures UserRecorded(rows, icons,
                           Upsert(newRows, AppKey(date, host, username, apps[i].name), apps[i].category,
                                  apps[i].seconds),
                           PutIcon(newIcons, apps[i]), date, host, username, apps[..i + 1])
    {
      CategoryStep(rows, newRows, date, host, username, apps, i);
      IconStep(icons, newIcons, apps, i);
      StampStep(RowSeconds(rows), date, host, username, apps, i);
      UpsertAdds(newRows, AppKey(date, host, username, apps[i].name), apps[i].category, apps[i].seconds);
    }

    lemma StampStep(start: map<AppKey, int>, date: string, host: string, username: string, apps: seq<AppTime>, i: nat)
      requires i < |apps|
      ensures Added(start, StampApps(date, host, Keyed(username, ListSeconds(apps[..i + 1]))))
              == Added(Added(start, StampApps(date, host, Keyed(username, ListSeconds(apps[..i])))),
                       map[AppKey(date, host, username, apps[i].name) := apps[i].seconds])
    {
      var app := apps[i];
      var before, one := ListSeconds(apps[..i]), map[app.name := app.seconds];
      assert apps[..i + 1] == apps[..i] + [app];
      ListSecondsGrows(apps[..i], app);
      KeyedAdded(username, before, one);
      StampAppsAdded(date, host, Keyed(username, before), Keyed(username, one));
      StampOne(date, host, username, app.name, app.seconds);
      AddedAssociative(start, StampApps(date, host, Keyed(username, before)),
                       StampApps(date, host, Keyed(username, one)));
    }

    method RecordScreen(report: Report, date: string) returns (newScreen: map<ScreenKey, int>)
      ensures newScreen == Added(screen, StampScreen(date, report.hostname, report.screenTime))
    {
      newScreen := screen;
      var todo := report.screenTime.Keys;
      FirstScreen(screen, date, report.hostname, report.screenTime);
      while todo != {}
        invariant todo <= report.screenTime.Keys
        invariant newScreen == ScreenDone(screen, date, report.hostname, report.screenTime, todo)
      {
        var username := Pick(todo);
        newScreen := UpsertScreen(newScreen, ScreenKey(date, report.hostname, username), report.screenTime[username]);
        NextScreen(screen, date, report.hostname, report.screenTime, todo, username);
        todo := todo - {username};
      }
      ExceptNone(report.screenTime);
    }

    method UpsertScreen(counts: map<ScreenKey, int>, k: ScreenKey, seconds: int) returns (more: map<ScreenKey, int>)
      ensures more == Added(counts, map[k := seconds])
    {
      PutAdds(counts, k, seconds);
      more := counts[k := CountOf(counts, k) + seconds];
    }

    ghost function ScreenDone(start: map<ScreenKey, int>, date: string, host: string, counts: map<string, int>,
                              todo: set<string>): map<ScreenKey, int> {
      Added(start, StampScreen(date, host, Except(counts, todo)))
    }

    lemma FirstScreen(start: map<ScreenKey, int>, date: string, host: string, counts: map<string, int>)
      ensures ScreenDone(start, date, host, counts, counts.Keys) == start
    {
    }

    lemma NextScreen(start: map<ScreenKey, int>, date: string, host: string, counts: map<string, int>,
                     todo: set<string>, username: string)
      requires username in counts && username in todo
      ensures ScreenDone(start, date, host, counts, todo - {username})
              == Added(ScreenDone(start, date, host, counts, todo),
                       map[ScreenKey(date, host, username) := counts[username]])
    {
      var before, one := Except(counts, todo), map[username := counts[username]];
      ExceptGrows(counts, todo, username);
      StampScreenAdded(date, host, before, one);
      StampOneScreen(date, host, username, counts[username]);
      AddedAssociative(start, StampScreen(date, host, before), StampScreen(date, host, one));
    }
  }
}
