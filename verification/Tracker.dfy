// Per-app seconds on the daemon: accumulate, flush into a report, merge back
// (internal/activity/types.go, internal/activity/tracker.go).

module Reports {
  import opened Wrappers
  import opened Totals

  datatype AppTime = AppTime(name: string, category: Option<string>, icon: Option<string>, seconds: int)

  datatype Report = Report(hostname: string, users: map<string, seq<AppTime>>, sessions: map<string, string>,
                           screenTime: map<string, int>)

  datatype UserApp = UserApp(user: string, app: string)

  /** Seconds by user and app, and by user. */
  datatype Tracked = Tracked(apps: map<UserApp, int>, screen: map<string, int>)

  const NOTHING: Tracked := Tracked(map[], map[])

  // ----- nested counts, flattened -----

  function Pairs(m: map<string, map<string, int>>): (pairs: set<UserApp>)
    ensures forall k :: k in pairs <==> k.user in m && k.app in m[k.user]
  {
    set user, app | user in m && app in m[user] :: UserApp(user, app)
  }

  function Spread(m: map<string, map<string, int>>): map<UserApp, int> {
    map k | k in Pairs(m) :: m[k.user][k.app]
  }

  function Keyed(user: string, d: map<string, int>): map<UserApp, int> {
    Spread(map[user := d])
  }

  function Get(m: map<string, map<string, int>>, user: string): map<string, int> {
    if user in m then m[user] else map[]
  }

  lemma SpreadAt(m: map<string, map<string, int>>, k: UserApp)
    ensures k in Spread(m) <==> k.app in Get(m, k.user)
    ensures CountOf(Spread(m), k) == CountOf(Get(m, k.user), k.app)
  {
  }

  lemma AddedAt<K>(m: map<K, int>, d: map<K, int>, k: K)
    ensures k in Added(m, d) <==> k in m || k in d
    ensures CountOf(Added(m, d), k) == CountOf(m, k) + CountOf(d, k)
  {
  }

  lemma SameCounts<K(!new)>(a: map<K, int>, b: map<K, int>)
    requires forall k :: (k in a <==> k in b) && CountOf(a, k) == CountOf(b, k)
    ensures a == b
  {
  }

  lemma SpreadAdd(m: map<string, map<string, int>>, user: string, d: map<string, int>)
    ensures Spread(m[user := Added(Get(m, user), d)]) == Added(Spread(m), Keyed(user, d))
  {
    var after := m[user := Added(Get(m, user), d)];
    var left, right := Spread(after), Added(Spread(m), Keyed(user, d));
    forall k ensures (k in left <==> k in right) && CountOf(left, k) == CountOf(right, k) {
      SpreadAt(after, k);
      SpreadAt(m, k);
      SpreadAt(map[user := d], k);
      AddedAt(Spread(m), Keyed(user, d), k);
      if k.user == user {
        AddedAt(Get(m, user), d, k.app);
      }
    }
    SameCounts(left, right);
  }

  lemma AddedEmpty<K>(m: map<K, int>)
    ensures Added(m, map[]) == m && Added(map[], m) == m
  {
  }

  lemma AddedAssociative<K>(a: map<K, int>, b: map<K, int>, c: map<K, int>)
    ensures Added(Added(a, b), c) == Added(a, Added(b, c))
  {
  }

  // ----- lists of a report -----

  function NamesIn(apps: seq<AppTime>): set<string> {
    set i | 0 <= i < |apps| :: apps[i].name
  }

  function SecondsIn(apps: seq<AppTime>, name: string): int {
    if apps == [] then 0
    else
      var last := apps[|apps| - 1];
      SecondsIn(apps[..|apps| - 1], name) + if last.name == name then last.seconds else 0
  }

  function ListSeconds(apps: seq<AppTime>): map<string, int> {
    map name | name in NamesIn(apps) :: SecondsIn(apps, name)
  }

  lemma {:induction false} NotNamedIsZero(apps: seq<AppTime>, name: string)
    requires name !in NamesIn(apps)
    ensures SecondsIn(apps, name) == 0
  {
    if apps != [] {
      var before := apps[..|apps| - 1];
      assert apps[|apps| - 1].name in NamesIn(apps);
      forall i | 0 <= i < |before| ensures before[i].name != name {
        assert apps[i].name in NamesIn(apps);
      }
      NotNamedIsZero(before, name);
    }
  }

  /** One more entry counts towards its name. */
  lemma ListSecondsGrows(apps: seq<AppTime>, app: AppTime)
    ensures ListSeconds(apps + [app]) == Added(ListSeconds(apps), map[app.name := app.seconds])
  {
    var more := apps + [app];
    assert more[..|apps|] == apps;
    NamesGrow(apps, app);
    if app.name !in NamesIn(apps) {
      NotNamedIsZero(apps, app.name);
    }
  }

  lemma NamesGrow(apps: seq<AppTime>, app: AppTime)
    ensures NamesIn(apps + [app]) == NamesIn(apps) + {app.name}
  {
    var more := apps + [app];
    forall name ensures name in NamesIn(more) <==> name in NamesIn(apps) || name == app.name {
      if name in NamesIn(apps) {
        var i :| 0 <= i < |apps| && apps[i].name == name;
        assert more[i].name == name;
      }
      assert more[|apps|].name == app.name;
    }
  }

  function PerUser(users: map<string, seq<AppTime>>): map<string, map<string, int>> {
    map user | user in users :: ListSeconds(users[user])
  }

  /** The rows of all users but some. */
  function ExceptRows(m: map<string, map<string, int>>, left: set<string>): map<string, map<string, int>> {
    map user | user in m && user !in left :: m[user]
  }

  lemma ExceptRowsGrows(m: map<string, map<string, int>>, left: set<string>, user: string)
    requires user in m && user in left
    ensures Spread(ExceptRows(m, left - {user})) == Added(Spread(ExceptRows(m, left)), Keyed(user, m[user]))
  {
    AddedEmpty(m[user]);
    SpreadAdd(ExceptRows(m, left), user, m[user]);
    assert ExceptRows(m, left - {user}) == ExceptRows(m, left)[user := m[user]];
  }

  lemma ExceptNoRows(m: map<string, map<string, int>>)
    ensures Spread(ExceptRows(m, m.Keys)) == map[] && ExceptRows(m, {}) == m
  {
  }

  lemma KeyedEmpty(user: string)
    ensures Keyed(user, map[]) == map[]
  {
  }

  /** What a report says, entry by entry. */
  function Content(report: Report): Tracked {
    Tracked(Spread(PerUser(report.users)), report.screenTime)
  }
}

module Tracking {
  import opened Wrappers
  import opened Text
  import opened Totals
  import opened Reports

  // ----- naming a process -----

  datatype AppInfo = AppInfo(name: string, category: Option<string>, icon: Option<string>)

  /** The lookups by application id, by executable, by game name, and of icons. */
  datatype Desktop = Desktop(gameByID: string -> Option<AppInfo>, lookup: string -> Option<AppInfo>,
                             game: string -> Option<AppInfo>, icon: string -> string)

  /** The app a process identifier stands for; an unknown application id stands for none. */
  function Resolve(desktop: Desktop, exe: string): Option<AppInfo> {
    if HasPrefix(exe, "appid:") then desktop.gameByID(TrimPrefix(exe, "appid:"))
    else if desktop.lookup(exe).Some? then desktop.lookup(exe)
    else if desktop.game(exe).Some? then desktop.game(exe)
    else
      var icon := desktop.icon(exe);
      Some(AppInfo(exe, None, if icon != "" then Some(icon) else None))
  }

  /** The ways in which a process identifier stands for an app: an application id of a known game;
      otherwise what the lookups know, first by executable and then by game name; otherwise the
      executable under its own name, with the icon found for it. */
  ghost predicate StandsFor(desktop: Desktop, exe: string, info: AppInfo) {
    if exists id :: exe == "appid:" + id then
      exists id :: exe == "appid:" + id && desktop.gameByID(id) == Some(info)
    else if exists known :: desktop.lookup(exe) == Some(known) then desktop.lookup(exe) == Some(info)
    else if exists known :: desktop.game(exe) == Some(known) then desktop.game(exe) == Some(info)
    else
      && info.name == exe && info.category == None
      && (info.icon == None <==> desktop.icon(exe) == "")
      && (info.icon.Some? ==> info.icon.value == desktop.icon(exe))
  }

  lemma ResolveExact(desktop: Desktop, exe: string, info: AppInfo)
    ensures Resolve(desktop, exe) == Some(info) <==> StandsFor(desktop, exe, info)
  {
    if HasPrefix(exe, "appid:") {
      assert exe == "appid:" + exe[6..];
      assert TrimPrefix(exe, "appid:") == exe[6..];
      forall id | exe == "appid:" + id ensures id == exe[6..] {
      }
    } else {
      forall id ensures exe != "appid:" + id {
        assert HasPrefix("appid:" + id, "appid:");
      }
      if desktop.lookup(exe).Some? {
        assert desktop.lookup(exe) == Some(desktop.lookup(exe).value);
      }
      if desktop.game(exe).Some? {
        assert desktop.game(exe) == Some(desktop.game(exe).value);
      }
    }
  }

  /** Some process stands for the app. */
  ghost predicate Runs(desktop: Desktop, processes: seq<string>, name: string) {
    exists i, info :: 0 <= i < |processes| && StandsFor(desktop, processes[i], info) && info.name == name
  }

  lemma NamesOfExact(desktop: Desktop, processes: seq<string>, name: string)
    ensures name in NamesOf(desktop, processes) <==> Runs(desktop, processes, name)
  {
    if name in NamesOf(desktop, processes) {
      var i :| 0 <= i < |processes| && Resolve(desktop, processes[i]).Some?
          && Resolve(desktop, processes[i]).value.name == name;
      ResolveExact(desktop, processes[i], Resolve(desktop, processes[i]).value);
    }
    if i, info :| 0 <= i < |processes| && StandsFor(desktop, processes[i], info) && info.name == name {
      ResolveExact(desktop, processes[i], info);
    }
  }

  function NamesOf(desktop: Desktop, processes: seq<string>): set<string> {
    set i | 0 <= i < |processes| && Resolve(desktop, processes[i]).Some? :: Resolve(desktop, processes[i]).value.name
  }

  lemma NamesOfGrow(desktop: Desktop, processes: seq<string>, k: nat)
    requires k < |processes|
    ensures NamesOf(desktop, processes[..k + 1])
            == NamesOf(desktop, processes[..k])
               + if Resolve(desktop, processes[k]).Some? then {Resolve(desktop, processes[k]).value.name} else {}
  {
  }

  // ----- one tick, as a value -----

  /** What a tick finds on the machine: whose session is active, and which processes they run. */
  datatype Machine = Machine(active: string -> bool, scan: string -> Result<seq<string>>)

  function AppsOf(desktop: Desktop, machine: Machine, user: string): set<string> {
    if machine.scan(user).Ok? then NamesOf(desktop, machine.scan(user).value) else {}
  }

  function Each(names: set<string>, seconds: int): map<string, int> {
    map name | name in names :: seconds
  }

  /** The interval, once to an active user and once to each of the user's apps. */
  function TickUser(t: Tracked, seconds: int, desktop: Desktop, machine: Machine, user: string): Tracked {
    if machine.active(user) then
      Tracked(Added(t.apps, Keyed(user, Each(AppsOf(desktop, machine, user), seconds))),
              Added(t.screen, map[user := seconds]))
    else t
  }

  function TickUsers(t: Tracked, seconds: int, desktop: Desktop, machine: Machine, users: seq<string>): Tracked {
    if users == [] then t
    else TickUser(TickUsers(t, seconds, desktop, machine, users[..|users| - 1]), seconds, desktop, machine,
                  users[|users| - 1])
  }

  function Mark(sessions: map<string, string>, machine: Machine, users: seq<string>): map<string, string> {
    if users == [] then sessions
    else
      var last := users[|users| - 1];
      Mark(sessions, machine, users[..|users| - 1])[last := if machine.active(last) then "online" else "idle"]
  }

  /** A user of the tick is online exactly if the session is active; other marks stay. */
  lemma {:induction false} MarkExact(sessions: map<string, string>, machine: Machine, users: seq<string>, u: string)
    ensures u in Mark(sessions, machine, users) <==> u in sessions || u in users
    ensures u in users ==>
              Mark(sessions, machine, users)[u] == if machine.active(u) then "online" else "idle"
    ensures u in sessions && u !in users ==> Mark(sessions, machine, users)[u] == sessions[u]
  {
    if users != [] {
      InitAndLast(users);
      MarkExact(sessions, machine, users[..|users| - 1], u);
    }
  }

  // ----- the tracker -----

  datatype AppEntry = AppEntry(category: Option<string>, icon: Option<string>, seconds: int)

  function SecondsOf(apps: map<string, AppEntry>): map<string, int> {
    map name | name in apps :: apps[name].seconds
  }

  function AccumSeconds(accum: map<string, map<string, AppEntry>>): map<string, map<string, int>> {
    map user | user in accum :: SecondsOf(accum[user])
  }

  /** One entry's seconds go up; a new entry starts at zero with the given details. */
  function Bump(apps: map<string, AppEntry>, name: string, category: Option<string>, icon: Option<string>,
                seconds: int): map<string, AppEntry> {
    var entry := if name in apps then apps[name] else AppEntry(category, icon, 0);
    apps[name := entry.(seconds := entry.seconds + seconds)]
  }

  lemma BumpAdds(apps: map<string, AppEntry>, name: string, category: Option<string>, icon: Option<string>,
                 seconds: int)
    ensures SecondsOf(Bump(apps, name, category, icon, seconds)) == Added(SecondsOf(apps), map[name := seconds])
  {
  }

  /** Every app that runs gets the interval once, and no other app. */
  lemma CountedOnce(desktop: Desktop, processes: seq<string>, before: map<string, int>, after: map<string, int>,
                    seconds: int)
    requires after == Added(before, Each(NamesOf(desktop, processes), seconds))
    ensures forall name :: CountOf(after, name)
                           == CountOf(before, name) + if Runs(desktop, processes, name) then seconds else 0
  {
    forall name
      ensures CountOf(after, name) == CountOf(before, name) + if Runs(desktop, processes, name) then seconds else 0
    {
      NamesOfExact(desktop, processes, name);
      AddedAt(before, Each(NamesOf(desktop, processes), seconds), name);
    }
  }

  lemma EachGrows(names: set<string>, name: string, seconds: int)
    requires name !in names
    ensures Added(Each(names, seconds), map[name := seconds]) == Each(names + {name}, seconds)
  {
  }

  // ----- entries of one user -----

  function EntriesOf(accum: map<string, map<string, AppEntry>>, user: string): map<string, AppEntry> {
    if user in accum then accum[user] else map[]
  }

  function ListOf(users: map<string, seq<AppTime>>, user: string): seq<AppTime> {
    if user in users then users[user] else []
  }

  function Scanned(machine: Machine, user: string): seq<string> {
    if machine.scan(user).Ok? then machine.scan(user).value else []
  }

  predicate SameDetails(a: AppEntry, b: AppEntry) {
    a.category == b.category && a.icon == b.icon
  }

  /** An entry keeps its details; a new one has those of a process that resolves to its name. */
  ghost predicate DetailsFrom(desktop: Desktop, start: map<string, AppEntry>, processes: seq<string>, name: string,
                        entry: AppEntry) {
    if name in start then SameDetails(entry, start[name])
    else
      exists i :: 0 <= i < |processes| &&
        StandsFor(desktop, processes[i], AppInfo(name, entry.category, entry.icon))
  }

  ghost predicate Ticked(desktop: Desktop, start: map<string, AppEntry>, processes: seq<string>,
                         apps: map<string, AppEntry>) {
    && start.Keys <= apps.Keys
    && forall name :: name in apps ==> DetailsFrom(desktop, start, processes, name, apps[name])
  }

  /** For every user, with the processes that were found. */
  ghost predicate AllTicked(desktop: Desktop, machine: Machine, before: map<string, map<string, AppEntry>>,
                            after: map<string, map<string, AppEntry>>) {
    forall user :: Ticked(desktop, EntriesOf(before, user), Scanned(machine, user), EntriesOf(after, user))
  }

  lemma TickedAgain(desktop: Desktop, machine: Machine, before: map<string, map<string, AppEntry>>,
                    mid: map<string, map<string, AppEntry>>, after: map<string, map<string, AppEntry>>)
    requires AllTicked(desktop, machine, before, mid) && AllTicked(desktop, machine, mid, after)
    ensures AllTicked(desktop, machine, before, after)
  {
    forall user ensures Ticked(desktop, EntriesOf(before, user), Scanned(machine, user), EntriesOf(after, user)) {
      TickedTwice(desktop, EntriesOf(before, user), Scanned(machine, user), EntriesOf(mid, user),
                  EntriesOf(after, user));
    }
  }

  lemma TickedOneUser(desktop: Desktop, machine: Machine, before: map<string, map<string, AppEntry>>, user: string,
                      apps: map<string, AppEntry>)
    requires Ticked(desktop, EntriesOf(before, user), Scanned(machine, user), apps)
    ensures AllTicked(desktop, machine, before, before[user := apps])
    ensures AllTicked(desktop, machine, before, before)
  {
  }

  lemma TickedTwice(desktop: Desktop, start: map<string, AppEntry>, processes: seq<string>, mid: map<string, AppEntry>,
                    apps: map<string, AppEntry>)
    requires Ticked(desktop, start, processes, mid) && Ticked(desktop, mid, processes, apps)
    ensures Ticked(desktop, start, processes, apps)
  {
    forall name | name in apps ensures DetailsFrom(desktop, start, processes, name, apps[name]) {
      assert DetailsFrom(desktop, mid, processes, name, apps[name]);
      assert name in mid ==> DetailsFrom(desktop, start, processes, name, mid[name]);
    }
  }

  lemma BumpTicks(desktop: Desktop, start: map<string, AppEntry>, processes: seq<string>,
                  apps: map<string, AppEntry>, k: nat, seconds: int)
    requires k < |processes| && Resolve(desktop, processes[k]).Some?
    requires Ticked(desktop, start, processes, apps)
    ensures var info := Resolve(desktop, processes[k]).value;
            Ticked(desktop, start, processes, Bump(apps, info.name, info.category, info.icon, seconds))
  {
    var info := Resolve(desktop, processes[k]).value;
    var bumped := Bump(apps, info.name, info.category, info.icon, seconds);
    ResolveExact(desktop, processes[k], info);
    forall name | name in bumped ensures DetailsFrom(desktop, start, processes, name, bumped[name]) {
      if name in apps {
        assert DetailsFrom(desktop, start, processes, name, apps[name]);
      } else {
        assert AppInfo(name, bumped[name].category, bumped[name].icon) == info;
      }
    }
  }

  function TimeOf(name: string, entry: AppEntry): AppTime {
    AppTime(name, entry.category, entry.icon, entry.seconds)
  }

  /** A list says just what the entries say, in any order. */
  ghost predicate Lists(list: seq<AppTime>, apps: map<string, AppEntry>) {
    && |list| == |apps| && ListSeconds(list) == SecondsOf(apps)
    && forall i :: 0 <= i < |list| ==> list[i].name in apps && list[i] == TimeOf(list[i].name, apps[list[i].name])
  }

  /** An entry keeps its details; a new one has those of the first in the list of its name. */
  predicate MergedFrom(start: map<string, AppEntry>, list: seq<AppTime>, name: string, entry: AppEntry) {
    if name in start then SameDetails(entry, start[name])
    else
      exists i :: 0 <= i < |list| && list[i].name == name && list[i].category == entry.category
                  && list[i].icon == entry.icon && name !in NamesIn(list[..i])
  }

  /** The entries after a list was added to them. */
  ghost predicate Merged(start: map<string, AppEntry>, list: seq<AppTime>, apps: map<string, AppEntry>) {
    && SecondsOf(apps) == Added(SecondsOf(start), ListSeconds(list))
    && forall name :: name in apps ==> MergedFrom(start, list, name, apps[name])
  }

  lemma MergedNothing(apps: map<string, AppEntry>)
    ensures Merged(apps, [], apps)
  {
    AddedEmpty(SecondsOf(apps));
    assert ListSeconds([]) == map[];
  }

  lemma SameEntries(a: map<string, AppEntry>, b: map<string, AppEntry>)
    requires SecondsOf(a) == SecondsOf(b)
    requires forall name :: name in a && name in b ==> SameDetails(a[name], b[name])
    ensures a == b
  {
    assert a.Keys == SecondsOf(a).Keys == SecondsOf(b).Keys == b.Keys;
    forall name | name in a ensures a[name] == b[name] {
      assert SecondsOf(a)[name] == SecondsOf(b)[name];
    }
  }

  /** Adding what was listed to nothing gives back the entries, categories and icons included. */
  lemma MergeRestores(apps: map<string, AppEntry>, list: seq<AppTime>, restored: map<string, AppEntry>)
    requires Lists(list, apps) && Merged(map[], list, restored)
    ensures restored == apps
  {
    AddedEmpty(ListSeconds(list));
    assert SecondsOf(map[]) == map[];
    forall name | name in restored && name in apps ensures SameDetails(restored[name], apps[name]) {
      assert MergedFrom(map[], list, name, restored[name]);
    }
    SameEntries(restored, apps);
  }

  lemma {:induction false} MergeOne(start: map<string, AppEntry>, list: seq<AppTime>, k: nat,
                                    apps: map<string, AppEntry>)
    requires k < |list| && Merged(start, list[..k], apps)
    ensures Merged(start, list[..k + 1], Bump(apps, list[k].name, list[k].category, list[k].icon, list[k].seconds))
  {
    var app, more := list[k], list[..k + 1];
    var bumped := Bump(apps, app.name, app.category, app.icon, app.seconds);
    assert more == list[..k] + [app];
    ListSecondsGrows(list[..k], app);
    BumpAdds(apps, app.name, app.category, app.icon, app.seconds);
    AddedAssociative(SecondsOf(start), ListSeconds(list[..k]), map[app.name := app.seconds]);
    forall name | name in bumped ensures MergedFrom(start, more, name, bumped[name]) {
      MergeOneName(start, list, k, apps, name);
    }
  }

  lemma MergeOneName(start: map<string, AppEntry>, list: seq<AppTime>, k: nat, apps: map<string, AppEntry>,
                     name: string)
    requires k < |list| && Merged(start, list[..k], apps)
    requires name in apps || name == list[k].name
    ensures var bumped := Bump(apps, list[k].name, list[k].category, list[k].icon, list[k].seconds);
            MergedFrom(start, list[..k + 1], name, bumped[name])
  {
    var before, more := list[..k], list[..k + 1];
    assert more[..k] == before && more[k] == list[k];
    if name in apps {
      assert MergedFrom(start, before, name, apps[name]);
      if name !in start {
        var i :| 0 <= i < k && before[i].name == name && before[i].category == apps[name].category
                 && before[i].icon == apps[name].icon && name !in NamesIn(before[..i]);
        assert more[..i] == before[..i] && more[i] == before[i];
      }
    } else {
      assert name !in SecondsOf(apps);
      assert name !in ListSeconds(before);
    }
  }

  /** Growing each user's seconds by the lists of a report grows the flattened counts. */
  lemma AccumGrows(before: map<string, map<string, AppEntry>>, users: map<string, seq<AppTime>>,
                   after: map<string, map<string, AppEntry>>)
    requires forall user :: Merged(EntriesOf(before, user), ListOf(users, user), EntriesOf(after, user))
    ensures Spread(AccumSeconds(after)) == Added(Spread(AccumSeconds(before)), Spread(PerUser(users)))
  {
    var left, right := Spread(AccumSeconds(after)), Added(Spread(AccumSeconds(before)), Spread(PerUser(users)));
    forall k ensures (k in left <==> k in right) && CountOf(left, k) == CountOf(right, k) {
      AccumAt(after, k);
      AccumAt(before, k);
      PerUserAt(users, k);
      AddedAt(Spread(AccumSeconds(before)), Spread(PerUser(users)), k);
      assert Merged(EntriesOf(before, k.user), ListOf(users, k.user), EntriesOf(after, k.user));
      AddedAt(SecondsOf(EntriesOf(before, k.user)), ListSeconds(ListOf(users, k.user)), k.app);
    }
    SameCounts(left, right);
  }

  lemma AccumAt(accum: map<string, map<string, AppEntry>>, k: UserApp)
    ensures k in Spread(AccumSeconds(accum)) <==> k.app in SecondsOf(EntriesOf(accum, k.user))
    ensures CountOf(Spread(AccumSeconds(accum)), k) == CountOf(SecondsOf(EntriesOf(accum, k.user)), k.app)
  {
    SpreadAt(AccumSeconds(accum), k);
    assert SecondsOf(map[]) == map[];
  }

  lemma PerUserAt(users: map<string, seq<AppTime>>, k: UserApp)
    ensures k in Spread(PerUser(users)) <==> k.app in ListSeconds(ListOf(users, k.user))
    ensures CountOf(Spread(PerUser(users)), k) == CountOf(ListSeconds(ListOf(users, k.user)), k.app)
  {
    SpreadAt(PerUser(users), k);
    assert ListSeconds([]) == map[];
  }

  /** Lists of every user's entries have the same flattened counts. */
  lemma ListsAgree(users: map<string, seq<AppTime>>, accum: map<string, map<string, AppEntry>>)
    requires forall user :: Lists(ListOf(users, user), EntriesOf(accum, user))
    ensures Spread(PerUser(users)) == Spread(AccumSeconds(accum))
  {
    var left, right := Spread(PerUser(users)), Spread(AccumSeconds(accum));
    forall k ensures (k in left <==> k in right) && CountOf(left, k) == CountOf(right, k) {
      AccumAt(accum, k);
      PerUserAt(users, k);
      assert Lists(ListOf(users, k.user), EntriesOf(accum, k.user));
    }
    SameCounts(left, right);
  }

  class Tracker {
    const hostname: string
    const seconds: nat
    const desktop: Desktop
    var accum: map<string, map<string, AppEntry>>
    var sessions: map<string, string>
    var screenTime: map<string, int>

    /** Whoever has screen time has a session entry. */
    ghost predicate Valid()
      reads this
    {
      screenTime.Keys <= sessions.Keys
    }

    function View(): Tracked
      reads this
    {
      Tracked(Spread(AccumSeconds(accum)), screenTime)
    }

    constructor (hostname: string, seconds: nat, desktop: Desktop)
      ensures Valid() && View() == NOTHING
      ensures this.hostname == hostname && this.seconds == seconds && this.desktop == desktop
    {
      this.hostname, this.seconds, this.desktop := hostname, seconds, desktop;
      accum, sessions, screenTime := map[], map[], map[];
    }

    method Tick(users: seq<string>, machine: Machine)
      requires Valid()
      modifies this
      ensures Valid() && View() == TickUsers(old(View()), seconds, desktop, machine, users)
      ensures sessions == Mark(old(sessions), machine, users)
      ensures AllTicked(desktop, machine, old(accum), accum)
    {
      TickedOneUser(desktop, machine, accum, "", EntriesOf(accum, ""));
      for k := 0 to |users|
        invariant Valid() && View() == TickUsers(old(View()), seconds, desktop, machine, users[..k])
        invariant sessions == Mark(old(sessions), machine, users[..k])
        invariant AllTicked(desktop, machine, old(accum), accum)
      {
        assert users[..k + 1][..k] == users[..k];
        ghost var before := accum;
        TickOne(users[k], machine);
        TickedAgain(desktop, machine, old(accum), before, accum);
      }
      assert users[..|users|] == users;
    }

    /** The loop's body. */
    method TickOne(username: string, machine: Machine)
      requires Valid()
      modifies this
      ensures Valid() && View() == TickUser(old(View()), seconds, desktop, machine, username)
      ensures sessions == old(sessions)[username := if machine.active(username) then "online" else "idle"]
      ensures AllTicked(desktop, machine, old(accum), accum)
    {
      if !machine.active(username) {
        TickedOneUser(desktop, machine, accum, username, EntriesOf(accum, username));
        sessions := sessions[username := "idle"];
        return;
      }
      sessions := sessions[username := "online"];
      screenTime := screenTime[username := CountOf(screenTime, username) + seconds];
      assert screenTime == Added(old(screenTime), map[username := seconds]);
      TickApps(username, machine);
    }

    /** Counts the user's apps, if their processes can be read. */
    method TickApps(username: string, machine: Machine)
      modifies this`accum
      ensures View() == Tracked(Added(old(View()).apps,
                                      Keyed(username, Each(AppsOf(desktop, machine, username), seconds))),
                                screenTime)
      ensures AllTicked(desktop, machine, old(accum), accum)
    {
      var processes := machine.scan(username);
      ghost var before := accum;
      if processes.Err? {
        TickedOneUser(desktop, machine, before, username, EntriesOf(before, username));
        assert Each(AppsOf(desktop, machine, username), seconds) == map[];
        KeyedEmpty(username);
        AddedEmpty(View().apps);
        return;
      }
      var apps := CountApps(EntriesOf(accum, username), processes.value);
      TickedOneUser(desktop, machine, before, username, apps);
      PutApps(username, apps, Each(NamesOf(desktop, processes.value), seconds));
    }

    /** Stores a user's entries, which have grown by `d`. */
    method PutApps(username: string, apps: map<string, AppEntry>, ghost d: map<string, int>)
      requires SecondsOf(apps) == Added(SecondsOf(EntriesOf(accum, username)), d)
      modifies this`accum
      ensures View() == Tracked(Added(old(View()).apps, Keyed(username, d)), screenTime)
      ensures accum == old(accum)[username := apps]
    {
      assert SecondsOf(map[]) == map[];
      SpreadAdd(AccumSeconds(accum), username, d);
      assert AccumSeconds(accum[username := apps]) == AccumSeconds(accum)[username := SecondsOf(apps)];
      accum := accum[username := apps];
    }

    /** Adds the interval once to each distinct name, however many processes resolve to it. */
    method CountApps(start: map<string, AppEntry>, processes: seq<string>) returns (apps: map<string, AppEntry>)
      ensures SecondsOf(apps) == Added(SecondsOf(start), Each(NamesOf(desktop, processes), seconds))
      ensures Ticked(desktop, start, processes, apps)
      ensures forall name :: CountOf(SecondsOf(apps), name)
                             == CountOf(SecondsOf(start), name) + if Runs(desktop, processes, name) then seconds else 0
    {
      apps := start;
      var seenNames := {};
      AddedEmpty(SecondsOf(start));
      for k := 0 to |processes|
        invariant Ticked(desktop, start, processes, apps)
        invariant seenNames == NamesOf(desktop, processes[..k])
        invariant SecondsOf(apps) == Added(SecondsOf(start), Each(seenNames, seconds))
      {
        NamesOfGrow(desktop, processes, k);
        var info := Resolve(desktop, processes[k]);
        if info.None? {
          continue;
        }
        var name := info.value.name;
        if name in seenNames {
          assert seenNames + {name} == seenNames;
          continue;
        }
        BumpAdds(apps, name, info.value.category, info.value.icon, seconds);
        AddedAssociative(SecondsOf(start), Each(seenNames, seconds), map[name := seconds]);
        EachGrows(seenNames, name, seconds);
        seenNames := seenNames + {name};
        BumpTicks(desktop, start, processes, apps, k, seconds);
        apps := Bump(apps, name, info.value.category, info.value.icon, seconds);
      }
      assert processes[..|processes|] == processes;
      CountedOnce(desktop, processes, SecondsOf(start), SecondsOf(apps), seconds);
    }

    /** Hands out everything accumulated, and starts again from nothing. */
    method Flush() returns (report: Option<Report>)
      requires Valid()
      modifies this
      ensures Valid() && View() == NOTHING && sessions == map[]
      ensures report.None? ==> old(View()) == NOTHING && old(sessions) == map[]
      ensures report.Some? ==> Content(report.value) == old(View()) && report.value.hostname == hostname
                               && report.value.sessions == old(sessions)
      ensures report.Some? ==> forall user :: Lists(ListOf(report.value.users, user), EntriesOf(old(accum), user))
      ensures accum == map[]
    {
      if accum == map[] && sessions == map[] {
        assert screenTime.Keys == {};
        return None;
      }
      var users := ListUsers();
      ListsAgree(users, accum);
      report := Some(Report(hostname, users, sessions, screenTime));
      accum, sessions, screenTime := map[], map[], map[];
    }

    /** A list for each user who has any app. */
    method ListUsers() returns (users: map<string, seq<AppTime>>)
      ensures forall user :: Lists(ListOf(users, user), EntriesOf(accum, user))
    {
      users := map[];
      var todo := accum.Keys;
      while todo != {}
        invariant todo <= accum.Keys && users.Keys !! todo
        invariant forall user :: user !in todo ==> Lists(ListOf(users, user), EntriesOf(accum, user))
      {
        var username := Pick(todo);
        var apps := ListApps(accum[username]);
        if apps != [] {
          users := users[username := apps];
        }
        todo := todo - {username};
      }
    }

    /** One report entry for each app, in any order. */
    method ListApps(apps: map<string, AppEntry>) returns (list: seq<AppTime>)
      ensures Lists(list, apps)
    {
      list := [];
      var todo := apps.Keys;
      ghost var counts := SecondsOf(apps);
      ExceptNone(counts);
      while todo != {}
        invariant todo <= apps.Keys && |list| + |todo| == |apps|
        invariant forall i :: 0 <= i < |list| ==>
            list[i].name in apps && list[i] == TimeOf(list[i].name, apps[list[i].name])
        invariant ListSeconds(list) == Except(counts, todo)
      {
        var name := Pick(todo);
        ListSecondsGrows(list, TimeOf(name, apps[name]));
        ExceptGrows(counts, todo, name);
        list := list + [TimeOf(name, apps[name])];
        todo := todo - {name};
      }
    }

    /** Adds a report's app seconds back; sessions and screen time are not restored. */
    method Merge(report: Report)
      modifies this`accum
      ensures View() == Tracked(Added(old(View()).apps, Content(report).apps), screenTime)
      ensures forall user :: Merged(EntriesOf(old(accum), user), ListOf(report.users, user), EntriesOf(accum, user))
    {
      MergeUsers(report.users);
      AccumGrows(old(accum), report.users, accum);
    }

    method MergeUsers(users: map<string, seq<AppTime>>)
      modifies this`accum
      ensures forall user :: Merged(EntriesOf(old(accum), user), ListOf(users, user), EntriesOf(accum, user))
    {
      var todo := users.Keys;
      while todo != {}
        invariant todo <= users.Keys
        invariant forall user :: user in users && user !in todo ==>
            Merged(EntriesOf(old(accum), user), users[user], EntriesOf(accum, user))
        invariant forall user :: user !in users || user in todo ==>
            EntriesOf(accum, user) == EntriesOf(old(accum), user)
      {
        var username := Pick(todo);
        var apps := MergeApps(EntriesOf(accum, username), users[username]);
        accum := accum[username := apps];
        todo := todo - {username};
      }
      forall user | user !in users ensures Merged(EntriesOf(old(accum), user), [], EntriesOf(accum, user)) {
        MergedNothing(EntriesOf(accum, user));
      }
    }

    method MergeApps(start: map<string, AppEntry>, list: seq<AppTime>) returns (apps: map<string, AppEntry>)
      ensures Merged(start, list, apps)
    {
      apps := start;
      MergedNothing(start);
      for k := 0 to |list|
        invariant Merged(start, list[..k], apps)
      {
        MergeOne(start, list, k, apps);
        apps := Bump(apps, list[k].name, list[k].category, list[k].icon, list[k].seconds);
      }
      assert list[..|list|] == list;
    }
  }
}
