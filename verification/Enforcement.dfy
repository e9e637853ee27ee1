// The enforcement tick over any run of configurations, clocks and file failures
// (cmd/daemon/main.go).

module Enforcement {
  import opened Wrappers
  import opened Text
  import opened Sorting
  import opened Schedules
  import opened Configs
  import opened DenyList

  /** What one tick meets: the configuration, the clock, and whether the file operations work. */
  datatype Tick = Tick(cfg: Config, now: Instant, readable: bool, writable: bool)

  ghost function Denied(tick: Tick): set<string> {
    set name | name in tick.cfg && !IsAllowed(name, tick.cfg, tick.now)
  }

  // ----- the sorted listing of a set -----

  function Insert(x: string, s: seq<string>): seq<string> {
    if s == [] || StringLe(x, s[0]) then [x] + s else [s[0]] + Insert(x, s[1..])
  }

  ghost function AnyOf(names: set<string>): string
    requires names != {}
    ensures AnyOf(names) in names
  {
    var x :| x in names;
    x
  }

  ghost function Listing(names: set<string>): seq<string> {
    if names == {} then [] else Insert(AnyOf(names), Listing(names - {AnyOf(names)}))
  }

  lemma {:induction false} InsertSorts(x: string, s: seq<string>)
    requires SortedBy(BY_NAME, s)
    ensures SortedBy(BY_NAME, Insert(x, s)) && multiset(Insert(x, s)) == multiset(s) + multiset{x}
  {
    StringOrder();
    if s == [] {
    } else if StringLe(x, s[0]) {
      assert BY_NAME(s[0], s[0]);
      forall i | 0 <= i < |s| ensures BY_NAME(x, s[i]) {
        assert BY_NAME(x, s[0]) && BY_NAME(s[0], s[i]);
      }
      ConsSorted(x, s);
    } else {
      HeadAndTail(s);
      InsertSorts(x, s[1..]);
      SmallestFirst(s[0], x, s[1..], Insert(x, s[1..]));
      ConsSorted(s[0], Insert(x, s[1..]));
    }
  }

  lemma ConsSorted(first: string, t: seq<string>)
    requires SortedBy(BY_NAME, t) && forall i :: 0 <= i < |t| ==> BY_NAME(first, t[i])
    ensures SortedBy(BY_NAME, [first] + t)
  {
  }

  lemma SmallestFirst(first: string, x: string, rest: seq<string>, t: seq<string>)
    requires multiset(t) == multiset(rest) + multiset{x}
    requires BY_NAME(first, x) && forall i :: 0 <= i < |rest| ==> BY_NAME(first, rest[i])
    ensures forall i :: 0 <= i < |t| ==> BY_NAME(first, t[i])
  {
    forall i | 0 <= i < |t| ensures BY_NAME(first, t[i]) {
      assert t[i] in multiset(t);
      assert t[i] in multiset(rest) || t[i] == x;
      assert t[i] in rest || t[i] == x;
    }
  }

  lemma SameNames(s: seq<string>, names: set<string>)
    requires multiset(s) == multiset(names)
    ensures forall x :: x in s <==> x in names
  {
    forall x ensures x in s <==> x in names {
      assert x in s <==> x in multiset(s);
    }
  }

  lemma TakesOne(names: set<string>, x: string)
    requires x in names
    ensures multiset(names) == multiset(names - {x}) + multiset{x}
  {
  }

  lemma {:induction false} ListingSorts(names: set<string>)
    ensures SortedBy(BY_NAME, Listing(names)) && multiset(Listing(names)) == multiset(names)
    ensures forall x :: x in Listing(names) <==> x in names
  {
    if names != {} {
      var x := AnyOf(names);
      ListingSorts(names - {x});
      InsertSorts(x, Listing(names - {x}));
      TakesOne(names, x);
    }
    SameNames(Listing(names), names);
  }

  /** Any sorted list of the set, each name once, is the listing. */
  lemma ListingUnique(names: set<string>, s: seq<string>)
    requires SortedBy(BY_NAME, s) && multiset(s) == multiset(names)
    ensures s == Listing(names)
  {
    StringOrder();
    StringsRankStrictly(s);
    ListingSorts(names);
    SortedUnique(BY_NAME, s, Listing(names));
  }

  // ----- one tick -----

  predicate Succeeds(file: Option<string>, tick: Tick) {
    (file.None? || tick.readable) && tick.writable
  }

  ghost function FileAfter(file: Option<string>, tick: Tick): Option<string> {
    if Succeeds(file, tick) then Some(Print(Listing(Denied(tick)))) else file
  }

  ghost function NameSet(file: Option<string>): set<string> {
    set name | name in Names(file)
  }

  ghost function TerminatedBy(file: Option<string>, tick: Tick): set<string> {
    if Succeeds(file, tick) then Denied(tick) - NameSet(file) else {}
  }

  /** Collects the denied users in whatever order the map yields them, brings the file in line,
      and ends the sessions of those it did not list. */
  method Enforce(file: DenyFile, tick: Tick) returns (terminated: seq<string>)
    modifies file
    ensures file.content == FileAfter(old(file.content), tick)
    ensures multiset(terminated) == multiset(TerminatedBy(old(file.content), tick))
  {
    var denied := CollectDenied(tick);
    NewlyDenied(denied, Denied(tick), Names(file.content));
    var list := new string[|denied|](i requires 0 <= i < |denied| => denied[i]);
    assert list[..] == denied;
    var added, ok := file.Sync(list, tick.readable, tick.writable);
    if !ok {
      return [];
    }
    ListingUnique(Denied(tick), list[..]);
    return added;
  }

  lemma NewlyDenied(denied: seq<string>, names: set<string>, listed: seq<string>)
    requires multiset(denied) == multiset(names)
    ensures multiset(Filter(denied, listed)) == multiset(names - set name | name in listed)
  {
    forall u ensures multiset(Filter(denied, listed))[u] == multiset(names - set name | name in listed)[u] {
      FilterCounts(denied, listed, u);
    }
  }

  method CollectDenied(tick: Tick) returns (denied: seq<string>)
    ensures multiset(denied) == multiset(Denied(tick))
  {
    denied := [];
    var todo := tick.cfg.Keys;
    while todo != {}
      invariant todo <= tick.cfg.Keys
      invariant multiset(denied) == multiset(Denied(tick) - todo)
    {
      var username := Pick(todo);
      var left := todo - {username};
      if !IsAllowed(username, tick.cfg, tick.now) {
        denied := denied + [username];
        assert Denied(tick) - left == (Denied(tick) - todo) + {username};
      } else {
        assert Denied(tick) - left == Denied(tick) - todo;
      }
      todo := left;
    }
    assert Denied(tick) - todo == Denied(tick);
  }

  // ----- runs -----

  ghost function FileAfterRun(file: Option<string>, ticks: seq<Tick>): Option<string> {
    if ticks == [] then file
    else FileAfter(FileAfterRun(file, ticks[..|ticks| - 1]), ticks[|ticks| - 1])
  }

  /** The daemon's loop, and its shutdown, which empties the file. */
  method RunEnforcement(file: DenyFile, ticks: seq<Tick>, writable: bool)
    modifies file
    ensures !writable ==> file.content == FileAfterRun(old(file.content), ticks)
    ensures writable ==> file.content == Some("") && Names(file.content) == []
  {
    for k := 0 to |ticks|
      invariant file.content == FileAfterRun(old(file.content), ticks[..k])
    {
      assert ticks[..k + 1][..k] == ticks[..k];
      var terminated := Enforce(file, ticks[k]);
    }
    assert ticks[..|ticks|] == ticks;
    var nobody := new string[0];
    var ok := file.Write(nobody, writable);
    ParsePrint([]);
  }

  /** The k-th tick of a run, met with the file its predecessors left. */
  ghost predicate SucceedsAt(file: Option<string>, ticks: seq<Tick>, k: int)
    requires 0 <= k < |ticks|
  {
    Succeeds(FileAfterRun(file, ticks[..k]), ticks[k])
  }

  predicate AllClean(names: set<string>) {
    forall name :: name in names ==> Clean(name)
  }

  /** After a successful tick the file reads as the sorted denied names exactly when they are
      clean names. */
  lemma ListsDenied(file: Option<string>, tick: Tick)
    requires Succeeds(file, tick)
    ensures Names(FileAfter(file, tick)) == Listing(Denied(tick)) <==> AllClean(Denied(tick))
  {
    ListingSorts(Denied(tick));
    ParsePrint(Listing(Denied(tick)));
  }

  /** Whatever they are, it reads as their lines. */
  lemma ListsLines(file: Option<string>, tick: Tick)
    requires Succeeds(file, tick)
    ensures NameSet(FileAfter(file, tick)) == ReadBack(Denied(tick))
  {
    ListingSorts(Denied(tick));
    PrintedSet(Listing(Denied(tick)), Denied(tick));
  }

  lemma {:induction false} UnchangedSince(file: Option<string>, ticks: seq<Tick>, from: int, k: int)
    requires 0 <= from <= k <= |ticks|
    requires forall i :: from <= i < k ==> !SucceedsAt(file, ticks, i)
    ensures FileAfterRun(file, ticks[..k]) == FileAfterRun(file, ticks[..from])
    decreases k
  {
    if from < k {
      UnchangedSince(file, ticks, from, k - 1);
      assert ticks[..k][..k - 1] == ticks[..k - 1];
      assert !SucceedsAt(file, ticks, k - 1);
    }
  }

  /** Over any run: a tick that fails ends no session; one that succeeds ends exactly the
      sessions of those denied now whose name is not a line of those denied at the last tick that
      succeeded, however many failed in between. */
  lemma TerminationHistory(file: Option<string>, ticks: seq<Tick>, last: int, k: int)
    requires 0 <= last < k < |ticks|
    requires SucceedsAt(file, ticks, last)
    requires forall i :: last < i < k ==> !SucceedsAt(file, ticks, i)
    ensures TerminatedBy(FileAfterRun(file, ticks[..k]), ticks[k])
            == if SucceedsAt(file, ticks, k) then Denied(ticks[k]) - ReadBack(Denied(ticks[last])) else {}
  {
    UnchangedSince(file, ticks, last + 1, k);
    assert ticks[..last + 1][..last] == ticks[..last];
    ListsLines(FileAfterRun(file, ticks[..last]), ticks[last]);
  }

  /** Every later successful tick ends exactly those denied now and not then. */
  ghost predicate EndsTheNew(file: Option<string>, last: Tick) {
    forall next :: Succeeds(FileAfter(file, last), next) ==>
      TerminatedBy(FileAfter(file, last), next) == Denied(next) - Denied(last)
  }

  /** That is so exactly when all names denied then are clean. */
  lemma TerminationExact(file: Option<string>, last: Tick)
    requires Succeeds(file, last)
    ensures EndsTheNew(file, last) <==> AllClean(Denied(last))
  {
    if AllClean(Denied(last)) {
      ListsLines(file, last);
      ReadBackExact(Denied(last));
    } else {
      var name :| name in Denied(last) && !Clean(name);
      var again := last.(readable := true);
      assert name in Denied(again) && Denied(again) == Denied(last);
      UncleanEndsAgain(FileAfter(file, last), again, name);
    }
  }

  /** A denied name that is surrounded by space reads back as another user's, so that the other
      user's sessions are not ended when access is denied next. */
  lemma SpacedNameHidesAnother(file: Option<string>, tick: Tick, name: string, next: Tick)
    requires Succeeds(file, tick) && name in Denied(tick) && '\n' !in name && TrimSpace(name) != ""
    ensures TrimSpace(name) !in TerminatedBy(FileAfter(file, tick), next)
  {
    ListsLines(file, tick);
    PiecesExact(name);
    assert TrimSpace(name) in Pieces(name);
  }

  /** Before any tick has succeeded the comparison is with the file the daemon found. */
  lemma FirstTermination(file: Option<string>, ticks: seq<Tick>, k: int)
    requires 0 <= k < |ticks|
    requires forall i :: 0 <= i < k ==> !SucceedsAt(file, ticks, i)
    ensures TerminatedBy(FileAfterRun(file, ticks[..k]), ticks[k])
            == if Succeeds(file, ticks[k]) then Denied(ticks[k]) - NameSet(file) else {}
  {
    UnchangedSince(file, ticks, 0, k);
    assert ticks[..0] == [];
  }

  /** A denied name that is not clean is never read back, so every successful tick ends that
      user's sessions again. */
  lemma UncleanEndsAgain(file: Option<string>, tick: Tick, name: string)
    requires name in Denied(tick) && !Clean(name)
    ensures Succeeds(file, tick) ==> name in TerminatedBy(file, tick)
  {
    if file.Some? {
      ParseIsClean(file.value);
    }
  }

  // ----- from the administrator's request to the deny file -----

  /** A locked user is in the file after every successful tick before the lock's end, whatever
      bonus is stored, whoever else is denied and whatever else the administrator does in
      between, exactly if the user's name is clean. */
  lemma LockReachesFile(cfg: Config, name: string, lock: Step, steps: seq<Step>, file: Option<string>, tick: Tick)
    requires var end := LockEnd(UserOf(cfg, name).schedules, lock.requestedAt);
             lock.cleanedAt <= end && CleanedBy(steps, end) && tick.now < end
    requires lock.op == LockUser(name)
    requires forall i :: 0 <= i < |steps| ==> !EndsLock(steps[i].op, name)
    requires tick.cfg == EagerRun(EagerStep(cfg, lock), steps)
    requires Succeeds(file, tick)
    ensures name in Names(FileAfter(file, tick)) <==> Clean(name)
  {
    LockHolds(cfg, name, lock, steps, tick.now);
    ListsLines(file, tick);
    ReadBackExact(Denied(tick));
    assert name in Names(FileAfter(file, tick)) <==> name in NameSet(FileAfter(file, tick));
  }

  /** No tick ends the sessions of a user with a running bonus; the user is in the file only if
      the name is a line of an unclean one that is denied. */
  lemma BonusReachesFile(name: string, end: Instant, file: Option<string>, tick: Tick)
    requires HasBonus(tick.cfg, name, end) && tick.now < end
    ensures name !in TerminatedBy(file, tick)
    ensures Succeeds(file, tick) && name in Names(FileAfter(file, tick)) ==>
              exists other :: other in Denied(tick) && !Clean(other) && name in Pieces(other)
  {
    BonusAllows(tick.cfg, name, end, tick.now);
    if Succeeds(file, tick) && name in Names(FileAfter(file, tick)) {
      ListsLines(file, tick);
      assert name in NameSet(FileAfter(file, tick));
      var other :| other in Denied(tick) && name in Pieces(other);
      PiecesExact(other);
    }
  }
}
