// Several daemons that report to one server, their rounds interleaved in any way
// (cmd/daemon/main.go, internal/activity/store.go).

module Fleets {
  import opened Wrappers
  import opened Totals
  import opened Reports
  import opened Tracking
  import opened ActivityTables
  import opened ActivityStores
  import opened Ledger
  import opened DayView

  // ----- runs as values -----

  /** An round on one of the hosts. */
  datatype HostRound = HostRound(host: string, round: Round)

  /** What each host's tracker holds, and the tables that all of them share. */
  datatype Fleet = Fleet(pending: map<string, Tracked>, server: Tables)

  type Daemons = map<string, Daemon>

  /** Each daemon reports under its own name. */
  predicate Named(daemons: Daemons) {
    forall h :: h in daemons ==> daemons[h].host == h
  }

  function Pending(f: Fleet, h: string): Tracked {
    if h in f.pending then f.pending[h] else NOTHING
  }

  /** What a host and the server hold. */
  function Share(f: Fleet, h: string): World {
    World(Pending(f, h), f.server)
  }

  function FleetStep(daemons: Daemons, f: Fleet, e: HostRound): Fleet {
    if e.host !in daemons then f
    else
      var w := AfterRound(daemons[e.host], Share(f, e.host), e.round);
      Fleet(f.pending[e.host := w.pending], w.server)
  }

  function FleetRun(daemons: Daemons, f: Fleet, rounds: seq<HostRound>): Fleet {
    if rounds == [] then f
    else FleetStep(daemons, FleetRun(daemons, f, rounds[..|rounds| - 1]), rounds[|rounds| - 1])
  }

  /** The rounds of one host, in their order. */
  function RoundsOf(rounds: seq<HostRound>, h: string): seq<Round> {
    if rounds == [] then []
    else
      var e := rounds[|rounds| - 1];
      RoundsOf(rounds[..|rounds| - 1], h) + if e.host == h then [e.round] else []
  }

  // ----- each host runs as if it were alone -----

  /** The same seconds of this host on the server. */
  ghost predicate SameRows(d: Daemon, s: Tables, t: Tables) {
    && (forall c :: ServerApp(d, s, c) == ServerApp(d, t, c))
    && forall u :: ServerScreen(d, s, u) == ServerScreen(d, t, u)
  }

  ghost predicate SameShare(d: Daemon, v: World, w: World) {
    v.pending == w.pending && SameRows(d, v.server, w.server)
  }

  lemma SettleAlike(d: Daemon, t: Tracked, s: Tables, r: Tables, e: Round, c: UserApp)
    requires ServerApp(d, s, c) == ServerApp(d, r, c) && ServerScreen(d, s, c.user) == ServerScreen(d, r, c.user)
    ensures ServerApp(d, Settle(d, t, s, e).server, c) == ServerApp(d, Settle(d, t, r, e).server, c)
    ensures ServerScreen(d, Settle(d, t, s, e).server, c.user) == ServerScreen(d, Settle(d, t, r, e).server, c.user)
  {
    SettleMoves(d, t, s, e, c);
    SettleMoves(d, t, r, e, c);
  }

  lemma StepKeepsShare(d: Daemon, v: World, w: World, e: Round)
    requires SameShare(d, v, w)
    ensures SameShare(d, AfterRound(d, v, e), AfterRound(d, w, e))
  {
    var t := AfterTick(d, v.pending, e);
    var s, r := Settle(d, t, v.server, e).server, Settle(d, t, w.server, e).server;
    forall c ensures ServerApp(d, s, c) == ServerApp(d, r, c) {
      SettleAlike(d, t, v.server, w.server, e, c);
    }
    forall u ensures ServerScreen(d, s, u) == ServerScreen(d, r, u) {
      SettleAlike(d, t, v.server, w.server, e, UserApp(u, ""));
    }
  }

  /** What another host records leaves this host's seconds as they are. */
  lemma OtherHostsApps(d: Daemon, host: string, t: Tables, date: string, r: Tracked, c: UserApp)
    requires d.host != host
    ensures ServerApp(d, Recorded(t, date, host, r), c) == ServerApp(d, t, c)
  {
    var apps := StampApps(date, host, r.apps);
    TotalAdded(t.apps, apps, AppRows(d, c));
    forall k | k in apps ensures !AppRows(d, c)(k) {
      StampAppsAt(date, host, r.apps, k);
    }
    TotalNone(apps, AppRows(d, c));
  }

  lemma OtherHostsScreen(d: Daemon, host: string, t: Tables, date: string, r: Tracked, u: string)
    requires d.host != host
    ensures ServerScreen(d, Recorded(t, date, host, r), u) == ServerScreen(d, t, u)
  {
    var screen := StampScreen(date, host, r.screen);
    TotalAdded(t.screen, screen, ScreenRows(d, u));
    forall k | k in screen ensures !ScreenRows(d, u)(k) {
      StampScreenAt(date, host, r.screen, k);
    }
    TotalNone(screen, ScreenRows(d, u));
  }

  lemma OtherHostsRows(d: Daemon, host: string, t: Tables, date: string, r: Tracked)
    requires d.host != host
    ensures SameRows(d, Recorded(t, date, host, r), t)
  {
    var after := Recorded(t, date, host, r);
    forall c ensures ServerApp(d, after, c) == ServerApp(d, t, c) {
      OtherHostsApps(d, host, t, date, r, c);
    }
    forall u ensures ServerScreen(d, after, u) == ServerScreen(d, t, u) {
      OtherHostsScreen(d, host, t, date, r, u);
    }
  }

  lemma SettleElsewhere(d: Daemon, other: Daemon, t: Tracked, server: Tables, e: Round)
    requires d.host != other.host
    ensures SameRows(d, Settle(other, t, server, e).server, server)
  {
    var after := Settle(other, t, server, e).server;
    if e.trusted && !e.sent.Undelivered? {
      OtherHostsRows(d, other.host, server, e.date, t);
      assert after == Recorded(server, e.date, other.host, t);
    } else {
      assert after == server;
    }
  }

  lemma OtherHostsStep(daemons: Daemons, f: Fleet, h: string, e: HostRound)
    requires Named(daemons) && h in daemons && e.host != h
    ensures SameShare(daemons[h], Share(FleetStep(daemons, f, e), h), Share(f, h))
  {
    if e.host in daemons {
      var t := AfterTick(daemons[e.host], Pending(f, e.host), e.round);
      var w := Settle(daemons[e.host], t, f.server, e.round);
      SettleElsewhere(daemons[h], daemons[e.host], t, f.server, e.round);
      var after := FleetStep(daemons, f, e);
      assert after.server == w.server;
      assert Pending(after, h) == Pending(f, h);
    }
  }

  /** However the hosts' rounds interleave, each host's share is that of its own rounds alone. */
  lemma {:induction false} RunsAlone(daemons: Daemons, f: Fleet, rounds: seq<HostRound>, h: string)
    requires Named(daemons) && h in daemons
    ensures SameShare(daemons[h], Share(FleetRun(daemons, f, rounds), h),
                      Run(daemons[h], Share(f, h), RoundsOf(rounds, h)))
  {
    if rounds != [] {
      var before, e := rounds[..|rounds| - 1], rounds[|rounds| - 1];
      RunsAlone(daemons, f, before, h);
      var mid, alone := FleetRun(daemons, f, before), Run(daemons[h], Share(f, h), RoundsOf(before, h));
      if e.host == h {
        StepKeepsShare(daemons[h], Share(mid, h), alone, e.round);
        assert RoundsOf(rounds, h)[..|RoundsOf(before, h)|] == RoundsOf(before, h);
      } else {
        OtherHostsStep(daemons, mid, h, e);
        assert RoundsOf(rounds, h) == RoundsOf(before, h);
      }
    }
  }

  /** The ledgers of each host hold in the fleet. */
  lemma FleetLedger(daemons: Daemons, f: Fleet, rounds: seq<HostRound>, h: string, c: UserApp)
    requires Named(daemons) && h in daemons
    ensures var d, own, end := daemons[h], RoundsOf(rounds, h), FleetRun(daemons, f, rounds);
            && ServerApp(d, end.server, c) + CountOf(Pending(end, h).apps, c) + LostApp(d, Share(f, h), own, c)
               == ServerApp(d, f.server, c) + CountOf(Pending(f, h).apps, c)
                  + TickedApp(d, own, c) + Doubled(d, Share(f, h), own, c)
            && ServerScreen(d, end.server, c.user) + CountOf(Pending(end, h).screen, c.user)
               + Dropped(d, Share(f, h), own, c.user) + LostScreen(d, Share(f, h), own, c.user)
               == ServerScreen(d, f.server, c.user) + CountOf(Pending(f, h).screen, c.user)
                  + TickedScreen(d, own, c.user)
  {
    var d, own := daemons[h], RoundsOf(rounds, h);
    RunsAlone(daemons, f, rounds, h);
    AppLedger(d, Share(f, h), own, c);
    ScreenLedger(d, Share(f, h), own, c.user);
  }

  // ----- app time within screen time, over all hosts -----

  ghost predicate FleetBounded(f: Fleet) {
    (forall h, k :: BoundedAt(Pending(f, h), k)) && RowsBounded(f.server)
  }

  predicate NoHostFails(rounds: seq<HostRound>) {
    forall i :: 0 <= i < |rounds| ==> !Fails(rounds[i].round)
  }

  lemma FleetStepKeepsBound(daemons: Daemons, f: Fleet, e: HostRound)
    requires FleetBounded(f) && !Fails(e.round)
    ensures FleetBounded(FleetStep(daemons, f, e))
  {
    if e.host in daemons {
      assert Bounded(Share(f, e.host));
      BoundExact(daemons[e.host], Share(f, e.host), e.round);
      forall h, k ensures BoundedAt(Pending(FleetStep(daemons, f, e), h), k) {
        assert h != e.host ==> BoundedAt(Pending(f, h), k);
      }
    }
  }

  lemma {:induction false} FleetKeepsBound(daemons: Daemons, f: Fleet, rounds: seq<HostRound>)
    requires FleetBounded(f) && NoHostFails(rounds)
    ensures FleetBounded(FleetRun(daemons, f, rounds))
  {
    if rounds != [] {
      var before := rounds[..|rounds| - 1];
      FleetKeepsBound(daemons, f, before);
      FleetStepKeepsBound(daemons, FleetRun(daemons, f, before), rounds[|rounds| - 1]);
    }
  }

  // ----- the running daemons -----

  type Trackers = map<string, Tracker>

  ghost function Objects(trackers: Trackers): set<Tracker> {
    set h | h in trackers :: trackers[h]
  }

  /** Trackers of their own for all hosts, each under its host's name. */
  ghost predicate Ready(trackers: Trackers)
    reads Objects(trackers)
  {
    && (forall h :: h in trackers ==> trackers[h].Valid() && trackers[h].hostname == h)
    && forall g, h :: g in trackers && h in trackers && trackers[g] == trackers[h] ==> g == h
  }

  ghost function DaemonsOf(trackers: Trackers): Daemons {
    map h | h in trackers :: DaemonOf(trackers[h])
  }

  ghost function FleetOf(trackers: Trackers, store: ActivityStore): Fleet
    reads Objects(trackers), store
  {
    Fleet(map h | h in trackers :: trackers[h].View(), store.View())
  }

  /** Any interleaving of the hosts' loops, with exits and new starts, does to trackers and tables
      what the run of values does. */
  method RunFleet(first: Trackers, store: ActivityStore, rounds: seq<HostRound>) returns (trackers: Trackers)
    requires Ready(first)
    modifies Objects(first), store
    ensures Ready(trackers) && DaemonsOf(trackers) == DaemonsOf(first)
    ensures fresh(Objects(trackers) - Objects(first))
    ensures FleetOf(trackers, store) == FleetRun(DaemonsOf(first), old(FleetOf(first, store)), rounds)
  {
    trackers := first;
    for k := 0 to |rounds|
      invariant Ready(trackers) && DaemonsOf(trackers) == DaemonsOf(first)
      invariant fresh(Objects(trackers) - Objects(first))
      invariant FleetOf(trackers, store) == FleetRun(DaemonsOf(first), old(FleetOf(first, store)), rounds[..k])
    {
      assert rounds[..k + 1][..k] == rounds[..k];
      trackers := RunOne(trackers, store, rounds[k]);
    }
    assert rounds[..|rounds|] == rounds;
  }

  method RunOne(trackers: Trackers, store: ActivityStore, e: HostRound) returns (after: Trackers)
    requires Ready(trackers)
    modifies Objects(trackers), store
    ensures Ready(after) && DaemonsOf(after) == DaemonsOf(trackers)
    ensures fresh(Objects(after) - Objects(trackers))
    ensures FleetOf(after, store) == FleetStep(DaemonsOf(trackers), old(FleetOf(trackers, store)), e)
  {
    after := trackers;
    if e.host in trackers {
      var tracker := trackers[e.host];
      assert forall h :: h in trackers && h != e.host ==> trackers[h] != tracker;
      var next := RunRound(tracker, store, e.round);
      after := trackers[e.host := next];
      ReadyAgain(trackers, e.host, next);
      assert Objects(after) <= Objects(trackers) + {next};
      OneTrackerChanged(after, store, e.host, old(FleetOf(trackers, store)));
    }
  }

  lemma ReadyAgain(trackers: Trackers, host: string, next: Tracker)
    requires host in trackers && next.Valid() && next.hostname == host && DaemonOf(next) == DaemonOf(trackers[host])
    requires forall h :: h in trackers && h != host ==>
               trackers[h].Valid() && trackers[h].hostname == h && trackers[h] != next
    requires forall g, h :: g in trackers && h in trackers && trackers[g] == trackers[h] ==> g == h
    ensures Ready(trackers[host := next]) && DaemonsOf(trackers[host := next]) == DaemonsOf(trackers)
  {
  }

  /** Only one host's tracker has changed. */
  lemma OneTrackerChanged(trackers: Trackers, store: ActivityStore, host: string, before: Fleet)
    requires host in trackers && before.pending.Keys == trackers.Keys
    requires forall h :: h in trackers && h != host ==> trackers[h].View() == before.pending[h]
    ensures FleetOf(trackers, store) == Fleet(before.pending[host := trackers[host].View()], store.View())
  {
  }

  method RunWithin(first: Trackers, store: ActivityStore, rounds: seq<HostRound>) returns (trackers: Trackers)
    requires Ready(first) && FleetBounded(FleetOf(first, store)) && NoHostFails(rounds)
    modifies Objects(first), store
    ensures Ready(trackers) && FleetBounded(FleetOf(trackers, store))
  {
    ghost var before := FleetOf(first, store);
    trackers := RunFleet(first, store, rounds);
    FleetKeepsBound(DaemonsOf(first), before, rounds);
  }

  /** If no send fails, then on whatever day, after whatever interleaving, no app shows more time
      than its user was at the screens of all hosts together. */
  method ShowDay(first: Trackers, store: ActivityStore, rounds: seq<HostRound>, date: string)
    returns (trackers: Trackers, day: map<string, UserActivity>)
    requires Ready(first) && FleetBounded(FleetOf(first, store)) && NoHostFails(rounds)
    modifies Objects(first), store
    ensures forall u :: u in day ==> WithinScreenTime(day[u])
    ensures Ready(trackers) && FleetBounded(FleetOf(trackers, store))
  {
    trackers := RunWithin(first, store, rounds);
    ghost var fleet := FleetOf(trackers, store);
    day := GetDay(store, date);
    assert FleetOf(trackers, store) == fleet;
    StoreDayBounded(store, date, day);
  }

  lemma StoreDayBounded(store: ActivityStore, date: string, day: map<string, UserActivity>)
    requires RowsBounded(store.View())
    requires forall u :: u in day ==> IsDay(store.rows, store.screen, store.icons, date, u, day[u])
    ensures forall u :: u in day ==> WithinScreenTime(day[u])
  {
    var t := Tables(RowSeconds(store.rows), store.screen);
    assert t == store.View();
    forall k ensures BoundedRow(t, k) {
      assert BoundedRow(store.View(), k);
    }
    forall u | u in day ensures WithinScreenTime(day[u]) {
      DayWithinScreenTime(store.rows, store.screen, store.icons, date, u, day[u]);
    }
  }
}
