// The daemon's reporting loop over any run of ticks and sends: where every ticked second is
// (cmd/daemon/main.go, internal/activity/tracker.go, internal/activity/store.go).

module Ledger {
  import opened Wrappers
  import opened Text
  import opened Totals
  import opened Reports
  import opened Tracking
  import opened ActivityTables
  import opened ActivityStores

  // ----- runs as values -----

  /** How a send ends: acknowledged; never recorded; recorded, but the daemon hears of a failure. */
  datatype Sent = Acknowledged | Undelivered | AckLost

  /** A tick; only with a trusted configuration is it followed by a report. The daemon may exit
      afterwards, for a shutdown or an update, and is then started again. */
  datatype Round = Round(users: seq<string>, machine: Machine, trusted: bool, date: string, sent: Sent, exits: bool)

  datatype Daemon = Daemon(host: string, seconds: nat, desktop: Desktop)

  /** What the tracker holds and what the server's tables hold. */
  datatype World = World(pending: Tracked, server: Tables)

  function AfterTick(d: Daemon, t: Tracked, e: Round): Tracked {
    TickUsers(t, d.seconds, d.desktop, e.machine, e.users)
  }

  /** What the tracker holds when the round is over: a failed send merges the apps back, but not
      the screen time. */
  function Held(t: Tracked, e: Round): Tracked {
    if !e.trusted then t else if e.sent.Acknowledged? then NOTHING else Tracked(t.apps, map[])
  }

  /** After a tick that left `t`. */
  function Settle(d: Daemon, t: Tracked, server: Tables, e: Round): World {
    World(Held(t, e), if !e.trusted || e.sent.Undelivered? then server else Recorded(server, e.date, d.host, t))
  }

  /** A daemon that exits takes with it what its tracker holds. */
  function AfterRound(d: Daemon, w: World, e: Round): World {
    var settled := Settle(d, AfterTick(d, w.pending, e), w.server, e);
    if e.exits then World(NOTHING, settled.server) else settled
  }

  function Run(d: Daemon, w: World, rounds: seq<Round>): World {
    if rounds == [] then w
    else AfterRound(d, Run(d, w, rounds[..|rounds| - 1]), rounds[|rounds| - 1])
  }

  // ----- ticked seconds, from the rounds alone -----

  function AppTicks(d: Daemon, machine: Machine, users: seq<string>, k: UserApp): int {
    if users == [] then 0
    else
      var user := users[|users| - 1];
      AppTicks(d, machine, users[..|users| - 1], k)
      + if user == k.user && machine.active(user) && k.app in AppsOf(d.desktop, machine, user) then d.seconds else 0
  }

  function ScreenTicks(d: Daemon, machine: Machine, users: seq<string>, u: string): int {
    if users == [] then 0
    else
      var user := users[|users| - 1];
      ScreenTicks(d, machine, users[..|users| - 1], u) + if user == u && machine.active(user) then d.seconds else 0
  }

  function TickedApp(d: Daemon, rounds: seq<Round>, k: UserApp): int {
    if rounds == [] then 0
    else
      var e := rounds[|rounds| - 1];
      TickedApp(d, rounds[..|rounds| - 1], k) + AppTicks(d, e.machine, e.users, k)
  }

  function TickedScreen(d: Daemon, rounds: seq<Round>, u: string): int {
    if rounds == [] then 0
    else
      var e := rounds[|rounds| - 1];
      TickedScreen(d, rounds[..|rounds| - 1], u) + ScreenTicks(d, e.machine, e.users, u)
  }

  lemma TickUserApp(t: Tracked, d: Daemon, machine: Machine, user: string, k: UserApp)
    ensures CountOf(TickUser(t, d.seconds, d.desktop, machine, user).apps, k)
            == CountOf(t.apps, k)
               + if user == k.user && machine.active(user) && k.app in AppsOf(d.desktop, machine, user) then d.seconds
                 else 0
    ensures CountOf(TickUser(t, d.seconds, d.desktop, machine, user).screen, k.user)
            == CountOf(t.screen, k.user) + if user == k.user && machine.active(user) then d.seconds else 0
  {
    var each := Each(AppsOf(d.desktop, machine, user), d.seconds);
    AddedAt(t.apps, Keyed(user, each), k);
    SpreadAt(map[user := each], k);
    AddedAt(t.screen, map[user := d.seconds as int], k.user);
  }

  /** A tick adds the interval to exactly the active users and their apps, once each. */
  lemma {:induction false} TickAdds(d: Daemon, t: Tracked, machine: Machine, users: seq<string>, k: UserApp)
    ensures var after := TickUsers(t, d.seconds, d.desktop, machine, users);
            && CountOf(after.apps, k) == CountOf(t.apps, k) + AppTicks(d, machine, users, k)
            && CountOf(after.screen, k.user) == CountOf(t.screen, k.user) + ScreenTicks(d, machine, users, k.user)
  {
    if users != [] {
      var before := users[..|users| - 1];
      TickAdds(d, t, machine, before, k);
      TickUserApp(TickUsers(t, d.seconds, d.desktop, machine, before), d, machine, users[|users| - 1], k);
    }
  }

  /** A tick of one active user who runs one process: only the app that it stands for gets the
      interval, whichever of the five ways gives its name. */
  lemma OneProcessCounts(d: Daemon, t: Tracked, machine: Machine, user: string, p: string, id: string, app: string)
    requires machine.active(user) && machine.scan(user) == Ok([p])
    ensures var lookup, game := d.desktop.lookup(p), d.desktop.game(p);
            var gains := CountOf(TickUsers(t, d.seconds, d.desktop, machine, [user]).apps, UserApp(user, app))
                         - CountOf(t.apps, UserApp(user, app));
            && (p == "appid:" + id && d.desktop.gameByID(id).Some? ==>
                  gains == if app == d.desktop.gameByID(id).value.name then d.seconds else 0)
            && (p == "appid:" + id && d.desktop.gameByID(id).None? ==> gains == 0)
            && ((forall i :: p != "appid:" + i) && lookup.Some? ==>
                  gains == if app == lookup.value.name then d.seconds else 0)
            && ((forall i :: p != "appid:" + i) && lookup.None? && game.Some? ==>
                  gains == if app == game.value.name then d.seconds else 0)
            && ((forall i :: p != "appid:" + i) && lookup.None? && game.None? ==>
                  gains == if app == p then d.seconds else 0)
  {
    TickAdds(d, t, machine, [user], UserApp(user, app));
    assert [user][..0] == [];
    OneProcessNames(d.desktop, p, id);
  }

  lemma OneProcessNames(desktop: Desktop, p: string, id: string)
    ensures NamesOf(desktop, [p]) == if Resolve(desktop, p).Some? then {Resolve(desktop, p).value.name} else {}
    ensures p == "appid:" + id ==> Resolve(desktop, p) == desktop.gameByID(id)
    ensures (forall i :: p != "appid:" + i) ==> !HasPrefix(p, "appid:")
  {
    assert [p][0] == p;
    if HasPrefix(p, "appid:") {
      assert p == "appid:" + p[6..];
    }
    assert p == "appid:" + id ==> p[6..] == id;
  }

  /** Order and repetition in the process list make no difference to what a tick adds. */
  lemma ProcessOrderIrrelevant(desktop: Desktop, a: seq<string>, b: seq<string>)
    requires forall exe :: exe in a <==> exe in b
    ensures NamesOf(desktop, a) == NamesOf(desktop, b)
  {
    NamesSubset(desktop, a, b);
    NamesSubset(desktop, b, a);
  }

  lemma NamesSubset(desktop: Desktop, a: seq<string>, b: seq<string>)
    requires forall exe :: exe in a ==> exe in b
    ensures NamesOf(desktop, a) <= NamesOf(desktop, b)
  {
    forall name | name in NamesOf(desktop, a) ensures name in NamesOf(desktop, b) {
      var i :| 0 <= i < |a| && Resolve(desktop, a[i]).Some? && Resolve(desktop, a[i]).value.name == name;
      assert a[i] in b;
      var j :| 0 <= j < |b| && b[j] == a[i];
    }
  }

  // ----- the ledgers -----

  function AppRows(d: Daemon, c: UserApp): AppKey -> bool {
    (k: AppKey) => k.host == d.host && k.user == c.user && k.app == c.app
  }

  function ScreenRows(d: Daemon, u: string): ScreenKey -> bool {
    (k: ScreenKey) => k.host == d.host && k.user == u
  }

  /** The seconds the server has from this host, over all dates. */
  ghost function ServerApp(d: Daemon, t: Tables, c: UserApp): int {
    Total(t.apps, AppRows(d, c))
  }

  ghost function ServerScreen(d: Daemon, t: Tables, u: string): int {
    Total(t.screen, ScreenRows(d, u))
  }

  lemma RecordingAddsApp(d: Daemon, t: Tables, date: string, r: Tracked, c: UserApp)
    ensures ServerApp(d, Recorded(t, date, d.host, r), c) == ServerApp(d, t, c) + CountOf(r.apps, c)
  {
    var apps, k := StampApps(date, d.host, r.apps), AppKey(date, d.host, c.user, c.app);
    TotalAdded(t.apps, apps, AppRows(d, c));
    forall j | j in apps && AppRows(d, c)(j) ensures j == k {
      StampAppsAt(date, d.host, r.apps, j);
    }
    TotalSingle(apps, AppRows(d, c), k);
    StampAppsAt(date, d.host, r.apps, k);
  }

  lemma RecordingAddsScreen(d: Daemon, t: Tables, date: string, r: Tracked, u: string)
    ensures ServerScreen(d, Recorded(t, date, d.host, r), u) == ServerScreen(d, t, u) + CountOf(r.screen, u)
  {
    var screen, k := StampScreen(date, d.host, r.screen), ScreenKey(date, d.host, u);
    TotalAdded(t.screen, screen, ScreenRows(d, u));
    forall j | j in screen && ScreenRows(d, u)(j) ensures j == k {
      StampScreenAt(date, d.host, r.screen, j);
    }
    TotalSingle(screen, ScreenRows(d, u), k);
    StampScreenAt(date, d.host, r.screen, k);
  }

  /** The app seconds of the reports that were recorded although their send seemed to fail. */
  function Doubled(d: Daemon, w: World, rounds: seq<Round>, c: UserApp): int {
    if rounds == [] then 0
    else
      var before, e := rounds[..|rounds| - 1], rounds[|rounds| - 1];
      Doubled(d, w, before, c)
      + if e.trusted && e.sent.AckLost? then CountOf(AfterTick(d, Run(d, w, before).pending, e).apps, c) else 0
  }

  /** The screen seconds of the reports that were never recorded. */
  function Dropped(d: Daemon, w: World, rounds: seq<Round>, u: string): int {
    if rounds == [] then 0
    else
      var before, e := rounds[..|rounds| - 1], rounds[|rounds| - 1];
      Dropped(d, w, before, u)
      + if e.trusted && e.sent.Undelivered? then CountOf(AfterTick(d, Run(d, w, before).pending, e).screen, u) else 0
  }

  /** The seconds that were held by a daemon when it exited. */
  function LostApp(d: Daemon, w: World, rounds: seq<Round>, c: UserApp): int {
    if rounds == [] then 0
    else
      var before, e := rounds[..|rounds| - 1], rounds[|rounds| - 1];
      LostApp(d, w, before, c)
      + if e.exits then CountOf(Held(AfterTick(d, Run(d, w, before).pending, e), e).apps, c) else 0
  }

  function LostScreen(d: Daemon, w: World, rounds: seq<Round>, u: string): int {
    if rounds == [] then 0
    else
      var before, e := rounds[..|rounds| - 1], rounds[|rounds| - 1];
      LostScreen(d, w, before, u)
      + if e.exits then CountOf(Held(AfterTick(d, Run(d, w, before).pending, e), e).screen, u) else 0
  }

  /** Settling moves a user's counts between tracker and tables, but for these. */
  lemma SettleMoves(d: Daemon, t: Tracked, server: Tables, e: Round, c: UserApp)
    ensures var next := Settle(d, t, server, e);
            && ServerApp(d, next.server, c) + CountOf(next.pending.apps, c)
               == ServerApp(d, server, c) + CountOf(t.apps, c)
                  + (if e.trusted && e.sent.AckLost? then CountOf(t.apps, c) else 0)
            && ServerScreen(d, next.server, c.user) + CountOf(next.pending.screen, c.user)
               + (if e.trusted && e.sent.Undelivered? then CountOf(t.screen, c.user) else 0)
               == ServerScreen(d, server, c.user) + CountOf(t.screen, c.user)
  {
    if e.trusted && !e.sent.Undelivered? {
      RecordingAddsApp(d, server, e.date, t, c);
      RecordingAddsScreen(d, server, e.date, t, c.user);
    }
  }

  /** And an exit takes away what is held. */
  lemma ExitLoses(d: Daemon, w: World, e: Round, c: UserApp)
    ensures var next, settled := AfterRound(d, w, e), Settle(d, AfterTick(d, w.pending, e), w.server, e);
            && next.server == settled.server
            && CountOf(next.pending.apps, c) + (if e.exits then CountOf(settled.pending.apps, c) else 0)
               == CountOf(settled.pending.apps, c)
            && CountOf(next.pending.screen, c.user)
               + (if e.exits then CountOf(settled.pending.screen, c.user) else 0)
               == CountOf(settled.pending.screen, c.user)
  {
  }

  lemma StepLedger(d: Daemon, w: World, e: Round, c: UserApp)
    ensures var next, t := AfterRound(d, w, e), AfterTick(d, w.pending, e);
            && ServerApp(d, next.server, c) + CountOf(next.pending.apps, c)
               + (if e.exits then CountOf(Held(t, e).apps, c) else 0)
               == ServerApp(d, w.server, c) + CountOf(w.pending.apps, c) + AppTicks(d, e.machine, e.users, c)
                  + (if e.trusted && e.sent.AckLost? then CountOf(t.apps, c) else 0)
            && ServerScreen(d, next.server, c.user) + CountOf(next.pending.screen, c.user)
               + (if e.exits then CountOf(Held(t, e).screen, c.user) else 0)
               + (if e.trusted && e.sent.Undelivered? then CountOf(t.screen, c.user) else 0)
               == ServerScreen(d, w.server, c.user) + CountOf(w.pending.screen, c.user)
                  + ScreenTicks(d, e.machine, e.users, c.user)
  {
    TickAdds(d, w.pending, e.machine, e.users, c);
    SettleMoves(d, AfterTick(d, w.pending, e), w.server, e, c);
    ExitLoses(d, w, e, c);
  }

  /** App time is lost exactly with a daemon that exits while it holds some; it is counted twice
      exactly when an acknowledgement is lost. */
  lemma {:induction false} AppLedger(d: Daemon, w: World, rounds: seq<Round>, c: UserApp)
    ensures var end := Run(d, w, rounds);
            ServerApp(d, end.server, c) + CountOf(end.pending.apps, c) + LostApp(d, w, rounds, c)
            == ServerApp(d, w.server, c) + CountOf(w.pending.apps, c)
               + TickedApp(d, rounds, c) + Doubled(d, w, rounds, c)
  {
    if rounds != [] {
      var before := rounds[..|rounds| - 1];
      AppLedger(d, w, before, c);
      StepLedger(d, Run(d, w, before), rounds[|rounds| - 1], c);
    }
  }

  /** Screen time is never counted twice; it is lost exactly with a report that is not recorded,
      or with a daemon that exits while it holds some. */
  lemma {:induction false} ScreenLedger(d: Daemon, w: World, rounds: seq<Round>, u: string)
    ensures var end := Run(d, w, rounds);
            ServerScreen(d, end.server, u) + CountOf(end.pending.screen, u)
            + Dropped(d, w, rounds, u) + LostScreen(d, w, rounds, u)
            == ServerScreen(d, w.server, u) + CountOf(w.pending.screen, u) + TickedScreen(d, rounds, u)
  {
    if rounds != [] {
      var before := rounds[..|rounds| - 1];
      ScreenLedger(d, w, before, u);
      StepLedger(d, Run(d, w, before), rounds[|rounds| - 1], UserApp(u, ""));
    }
  }

  // ----- app time within screen time -----

  predicate BoundedAt(t: Tracked, k: UserApp) {
    0 <= CountOf(t.screen, k.user) && CountOf(t.apps, k) <= CountOf(t.screen, k.user)
  }

  predicate BoundedRow(t: Tables, k: AppKey) {
    var screen := CountOf(t.screen, ScreenKey(k.date, k.host, k.user));
    0 <= screen && CountOf(t.apps, k) <= screen
  }

  /** In the tracker and in every row no app has more than its user's screen time. */
  ghost predicate Bounded(w: World) {
    (forall k :: BoundedAt(w.pending, k)) && RowsBounded(w.server)
  }

  ghost predicate RowsBounded(t: Tables) {
    forall k :: BoundedRow(t, k)
  }

  lemma {:induction false} TicksBounded(d: Daemon, machine: Machine, users: seq<string>, k: UserApp)
    ensures AppTicks(d, machine, users, k) <= ScreenTicks(d, machine, users, k.user)
    ensures 0 <= ScreenTicks(d, machine, users, k.user)
  {
    if users != [] {
      TicksBounded(d, machine, users[..|users| - 1], k);
    }
  }

  lemma TickKeepsBound(d: Daemon, t: Tracked, e: Round, k: UserApp)
    requires BoundedAt(t, k)
    ensures BoundedAt(AfterTick(d, t, e), k)
  {
    TickAdds(d, t, e.machine, e.users, k);
    TicksBounded(d, e.machine, e.users, k);
  }

  lemma RecordedApp(t: Tables, date: string, host: string, r: Tracked, k: AppKey)
    ensures CountOf(Recorded(t, date, host, r).apps, k)
            == CountOf(t.apps, k)
               + if k.date == date && k.host == host then CountOf(r.apps, UserApp(k.user, k.app)) else 0
  {
    AddedAt(t.apps, StampApps(date, host, r.apps), k);
    StampAppsAt(date, host, r.apps, k);
  }

  lemma RecordedScreen(t: Tables, date: string, host: string, r: Tracked, k: ScreenKey)
    ensures CountOf(Recorded(t, date, host, r).screen, k)
            == CountOf(t.screen, k) + if k.date == date && k.host == host then CountOf(r.screen, k.user) else 0
  {
    AddedAt(t.screen, StampScreen(date, host, r.screen), k);
    StampScreenAt(date, host, r.screen, k);
  }

  lemma RecordKeepsBound(t: Tables, date: string, host: string, r: Tracked, k: AppKey)
    requires BoundedRow(t, k) && BoundedAt(r, UserApp(k.user, k.app))
    ensures BoundedRow(Recorded(t, date, host, r), k)
  {
    RecordedApp(t, date, host, r, k);
    RecordedScreen(t, date, host, r, ScreenKey(k.date, k.host, k.user));
  }

  /** A send that fails, and that the daemon survives. */
  predicate Fails(e: Round) {
    e.trusted && !e.sent.Acknowledged? && !e.exits
  }

  predicate NoneFails(rounds: seq<Round>) {
    forall i :: 0 <= i < |rounds| ==> !Fails(rounds[i])
  }

  /** A failed send that has app time to merge back. */
  ghost predicate BreaksBound(d: Daemon, w: World, e: Round) {
    Fails(e) && exists k :: CountOf(AfterTick(d, w.pending, e).apps, k) > 0
  }

  /** A round keeps the bound exactly when it is not a failed send of app time. */
  lemma BoundExact(d: Daemon, w: World, e: Round)
    requires Bounded(w)
    ensures Bounded(AfterRound(d, w, e)) <==> !BreaksBound(d, w, e)
  {
    var t, next := AfterTick(d, w.pending, e), AfterRound(d, w, e);
    forall k ensures BoundedAt(t, k) {
      TickKeepsBound(d, w.pending, e, k);
    }
    forall k ensures BoundedRow(next.server, k) {
      assert BoundedAt(t, UserApp(k.user, k.app));
      RecordKeepsBound(w.server, e.date, d.host, t, k);
    }
    if BreaksBound(d, w, e) {
      var k :| CountOf(t.apps, k) > 0;
      assert !BoundedAt(next.pending, k);
    } else {
      forall k ensures BoundedAt(next.pending, k) {
        assert BoundedAt(t, k);
      }
    }
  }

  const BARE: Desktop := Desktop(id => None, exe => None, exe => None, exe => "")

  const EMPTY: World := World(NOTHING, Tables(map[], map[]))

  /** Ten seconds in which one user runs one program. */
  function Played(sent: Sent): Round {
    Round(["bob"], Machine(user => true, user => Ok(["game"])), true, "2025-01-01", sent, false)
  }

  lemma PlayedAdds(t: Tracked, sent: Sent)
    ensures var d, k := Daemon("pc", 10, BARE), UserApp("bob", "game");
            && CountOf(AfterTick(d, t, Played(sent)).apps, k) == CountOf(t.apps, k) + 10
            && CountOf(AfterTick(d, t, Played(sent)).screen, "bob") == CountOf(t.screen, "bob") + 10
  {
    var d, k, machine := Daemon("pc", 10, BARE), UserApp("bob", "game"), Played(sent).machine;
    TickAdds(d, t, machine, ["bob"], k);
    assert ["bob"][..0] == [];
    assert Resolve(BARE, ["game"][0]) == Some(AppInfo("game", None, None));
    assert "game" in AppsOf(BARE, machine, "bob");
  }

  /** A report that is never delivered leaves app time without screen time in the tracker. */
  lemma UndeliveredOutruns()
    ensures var end := Run(Daemon("pc", 10, BARE), EMPTY, [Played(Undelivered)]);
            && CountOf(end.pending.apps, UserApp("bob", "game")) == 10 && CountOf(end.pending.screen, "bob") == 0
            && !Bounded(end)
  {
    var d, e := Daemon("pc", 10, BARE), Played(Undelivered);
    assert [e][..0] == [] && Run(d, EMPTY, [e]) == AfterRound(d, EMPTY, e);
    PlayedAdds(NOTHING, Undelivered);
    assert !BoundedAt(AfterRound(d, EMPTY, e).pending, UserApp("bob", "game"));
  }

  lemma AcknowledgedRows(w: World)
    ensures var after := AfterRound(Daemon("pc", 10, BARE), w, Played(Acknowledged)).server;
            var k, s := AppKey("2025-01-01", "pc", "bob", "game"), ScreenKey("2025-01-01", "pc", "bob");
            && CountOf(after.apps, k)
               == CountOf(w.server.apps, k) + CountOf(w.pending.apps, UserApp("bob", "game")) + 10
            && CountOf(after.screen, s) == CountOf(w.server.screen, s) + CountOf(w.pending.screen, "bob") + 10
  {
    var t := AfterTick(Daemon("pc", 10, BARE), w.pending, Played(Acknowledged));
    PlayedAdds(w.pending, Acknowledged);
    RecordedApp(w.server, "2025-01-01", "pc", t, AppKey("2025-01-01", "pc", "bob", "game"));
    RecordedScreen(w.server, "2025-01-01", "pc", t, ScreenKey("2025-01-01", "pc", "bob"));
  }

  /** The next report takes it to the server, where a parent sees it. */
  lemma UndeliveredReachesRows()
    ensures var end := Run(Daemon("pc", 10, BARE), EMPTY, [Played(Undelivered), Played(Acknowledged)]);
            && CountOf(end.server.apps, AppKey("2025-01-01", "pc", "bob", "game")) == 20
            && CountOf(end.server.screen, ScreenKey("2025-01-01", "pc", "bob")) == 10
  {
    var d, first, second := Daemon("pc", 10, BARE), Played(Undelivered), Played(Acknowledged);
    assert [first, second][..1] == [first] && [first][..0] == [];
    UndeliveredOutruns();
    AcknowledgedRows(Run(d, EMPTY, [first]));
    assert Run(d, EMPTY, [first]) == AfterRound(d, EMPTY, first);
  }

  /** With no failed send the bound holds throughout. */
  lemma {:induction false} RunKeepsBound(d: Daemon, w: World, rounds: seq<Round>)
    requires Bounded(w) && NoneFails(rounds)
    ensures Bounded(Run(d, w, rounds))
  {
    if rounds != [] {
      var before := rounds[..|rounds| - 1];
      RunKeepsBound(d, w, before);
      BoundExact(d, Run(d, w, before), rounds[|rounds| - 1]);
    }
  }

  // ----- when the server's rows stay bounded -----

  lemma Longest(names: set<string>) returns (n: nat)
    ensures forall x :: x in names ==> |x| <= n
  {
    n := 0;
    if names != {} {
      var x :| x in names;
      var m := Longest(names - {x});
      n := if m < |x| then |x| else m;
    }
  }

  lemma UnusedDate(t: Tables) returns (date: string)
    ensures (forall k :: k in t.apps ==> k.date != date) && forall k :: k in t.screen ==> k.date != date
  {
    var dates := (set k | k in t.apps :: k.date) + set k | k in t.screen :: k.date;
    var n := Longest(dates);
    date := seq(n + 1, _ => '0');
    forall k | k in t.apps ensures k.date != date {
      assert k.date in dates;
    }
    forall k | k in t.screen ensures k.date != date {
      assert k.date in dates;
    }
  }

  /** A report on a day without rows shows what the tracker held. */
  lemma HeldReachesRows(d: Daemon, w: World, k: UserApp) returns (rounds: seq<Round>)
    requires !BoundedAt(w.pending, k)
    ensures NoneFails(rounds) && !RowsBounded(Run(d, w, rounds).server)
  {
    var date := UnusedDate(w.server);
    var e := Round([], Machine(user => false, user => Err), true, date, Acknowledged, false);
    rounds := [e];
    assert rounds[..0] == [] && Run(d, w, rounds) == AfterRound(d, w, e);
    assert AfterTick(d, w.pending, e) == w.pending;
    RecordedApp(w.server, date, d.host, w.pending, AppKey(date, d.host, k.user, k.app));
    RecordedScreen(w.server, date, d.host, w.pending, ScreenKey(date, d.host, k.user));
    assert !BoundedRow(Run(d, w, rounds).server, AppKey(date, d.host, k.user, k.app));
  }

  /** The rows stay bounded however the daemon goes on without a failed send. */
  ghost predicate RowsStayBounded(d: Daemon, w: World) {
    forall rounds :: NoneFails(rounds) ==> RowsBounded(Run(d, w, rounds).server)
  }

  /** So they do exactly when app time is within screen time in the tracker too. */
  lemma RowsStayBoundedExactly(d: Daemon, w: World)
    requires RowsBounded(w.server)
    ensures RowsStayBounded(d, w) <==> Bounded(w)
  {
    if Bounded(w) {
      forall rounds | NoneFails(rounds) ensures RowsBounded(Run(d, w, rounds).server) {
        RunKeepsBound(d, w, rounds);
      }
    } else {
      var k :| !BoundedAt(w.pending, k);
      var rounds := HeldReachesRows(d, w, k);
    }
  }

  // ----- a day over all hosts -----

  function DayApp(date: string, c: UserApp): AppKey -> bool {
    (k: AppKey) => k.date == date && k.user == c.user && k.app == c.app
  }

  function DayScreen(date: string, u: string): ScreenKey -> bool {
    (k: ScreenKey) => k.date == date && k.user == u
  }

  /** A recorded report raises the sums of its own date by its seconds, and no other date's. */
  lemma RecordingRaisesDay(t: Tables, date: string, host: string, r: Tracked, day: string, c: UserApp)
    ensures Total(Recorded(t, date, host, r).apps, DayApp(day, c))
            == Total(t.apps, DayApp(day, c)) + if day == date then CountOf(r.apps, c) else 0
  {
    var apps, k := StampApps(date, host, r.apps), AppKey(date, host, c.user, c.app);
    TotalAdded(t.apps, apps, DayApp(day, c));
    forall j | j in apps && DayApp(day, c)(j) ensures day == date && j == k {
      StampAppsAt(date, host, r.apps, j);
    }
    if day == date {
      TotalSingle(apps, DayApp(day, c), k);
      StampAppsAt(date, host, r.apps, k);
    } else {
      TotalNone(apps, DayApp(day, c));
    }
  }

  lemma RecordingRaisesDayScreen(t: Tables, date: string, host: string, r: Tracked, day: string, u: string)
    ensures Total(Recorded(t, date, host, r).screen, DayScreen(day, u))
            == Total(t.screen, DayScreen(day, u)) + if day == date then CountOf(r.screen, u) else 0
  {
    var screen, k := StampScreen(date, host, r.screen), ScreenKey(date, host, u);
    TotalAdded(t.screen, screen, DayScreen(day, u));
    forall j | j in screen && DayScreen(day, u)(j) ensures day == date && j == k {
      StampScreenAt(date, host, r.screen, j);
    }
    if day == date {
      TotalSingle(screen, DayScreen(day, u), k);
      StampScreenAt(date, host, r.screen, k);
    } else {
      TotalNone(screen, DayScreen(day, u));
    }
  }

  /** Summing a day over all hosts keeps every app within the screen time. */
  lemma DayBounded(t: Tables, date: string, c: UserApp)
    requires RowsBounded(t)
    ensures Total(t.apps, DayApp(date, c)) <= Total(t.screen, DayScreen(date, c.user))
  {
    var apps, screen := Kept(t.apps, DayApp(date, c)), Kept(t.screen, DayScreen(date, c.user));
    var host := (k: AppKey) => ScreenKey(k.date, k.host, k.user);
    forall k | k in apps ensures apps[k] <= CountOf(screen, host(k)) {
      assert BoundedRow(t, k);
    }
    forall s | s in screen ensures 0 <= screen[s] {
      assert BoundedRow(t, AppKey(s.date, s.host, s.user, c.app));
    }
    SumBounded(apps, screen, host);
  }

  // ----- the running daemon -----

  function WorldOf(tracker: Tracker, store: ActivityStore): World
    reads tracker, store
  {
    World(tracker.View(), store.View())
  }

  function DaemonOf(tracker: Tracker): Daemon {
    Daemon(tracker.hostname, tracker.seconds, tracker.desktop)
  }

  lemma RecordingNothing(t: Tables, date: string, host: string)
    ensures Recorded(t, date, host, NOTHING) == t
  {
  }

  /** Sends a report; says whether the daemon sees an error. */
  method SendReport(store: ActivityStore, report: Report, date: string, sent: Sent) returns (failed: bool)
    modifies store
    ensures failed == !sent.Acknowledged?
    ensures store.View() == if sent.Undelivered? then old(store.View())
                            else Recorded(old(store.View()), date, report.hostname, Content(report))
  {
    var ok := store.Record(report, date, !sent.Undelivered?);
    failed := !sent.Acknowledged?;
  }

  method TrackAndReport(tracker: Tracker, store: ActivityStore, e: Round)
    requires tracker.Valid() && e.trusted
    modifies tracker, store
    ensures tracker.Valid()
    ensures WorldOf(tracker, store) == Settle(DaemonOf(tracker), AfterTick(DaemonOf(tracker), old(tracker.View()), e),
                                              old(store.View()), e)
  {
    tracker.Tick(e.users, e.machine);
    var report := tracker.Flush();
    RecordingNothing(store.View(), e.date, tracker.hostname);
    if report.None? {
      return;
    }
    var failed := SendReport(store, report.value, e.date, e.sent);
    if failed {
      AddedEmpty(Content(report.value).apps);
      tracker.Merge(report.value);
    }
  }

  /** One round of the main loop; after an exit there is a new tracker. */
  method RunRound(tracker: Tracker, store: ActivityStore, e: Round) returns (next: Tracker)
    requires tracker.Valid()
    modifies tracker, store
    ensures next.Valid() && DaemonOf(next) == DaemonOf(tracker) && (next == tracker || fresh(next))
    ensures WorldOf(next, store) == AfterRound(DaemonOf(tracker), old(WorldOf(tracker, store)), e)
  {
    if e.trusted {
      TrackAndReport(tracker, store, e);
    } else {
      tracker.Tick(e.users, e.machine);
    }
    next := tracker;
    if e.exits {
      next := new Tracker(tracker.hostname, tracker.seconds, tracker.desktop);
    }
  }

  /** The main loop, over exits and new starts: any run of rounds does to the tracker and the tables
      what the run of values does. */
  method RunDaemon(first: Tracker, store: ActivityStore, rounds: seq<Round>) returns (tracker: Tracker)
    requires first.Valid()
    modifies first, store
    ensures tracker.Valid() && DaemonOf(tracker) == DaemonOf(first) && (tracker == first || fresh(tracker))
    ensures WorldOf(tracker, store) == Run(DaemonOf(first), old(WorldOf(first, store)), rounds)
  {
    tracker := first;
    for k := 0 to |rounds|
      invariant tracker.Valid() && DaemonOf(tracker) == DaemonOf(first) && (tracker == first || fresh(tracker))
      invariant WorldOf(tracker, store) == Run(DaemonOf(first), old(WorldOf(first, store)), rounds[..k])
    {
      assert rounds[..k + 1][..k] == rounds[..k];
      tracker := RunRound(tracker, store, rounds[k]);
    }
    assert rounds[..|rounds|] == rounds;
  }
}
