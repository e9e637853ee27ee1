// The configuration store: a table of users edited in place, snapshots for readers, and a
// file replaced step by step (internal/config/store.go, internal/server/handlers.go).

module ConfigFile {
  import opened Wrappers
  import opened Configs

  // ----- the file format -----

  /** A parsed document; its "users" may be absent. */
  datatype Document = Document(users: Option<Config>)

  datatype Codec = Codec(encode: Config -> string, decode: string -> Option<Document>) {
    ghost predicate RoundTrips() {
      forall cfg :: decode(encode(cfg)) == Some(Document(Some(cfg)))
    }
  }

  /** What a fresh start makes of the stored file, if there is one. */
  function Recovered(codec: Codec, stored: Option<string>): Result<Config> {
    if stored.None? then Ok(map[])
    else
      var doc := codec.decode(stored.value);
      if doc.None? then Err
      else Ok(if doc.value.users.Some? then doc.value.users.value else map[])
  }

  // ----- saving, with a failure at any step -----

  datatype SaveStep = Marshal | MakeDir | CreateTemp | Write | Close | Rename | Finish

  /** A step reports an error, or the process dies just before it. A write that goes wrong leaves
      a part of the data; removing the temporary file after an error may fail too. */
  datatype Fault =
    | NoFault
    | ErrorAt(step: SaveStep, written: nat, removed: bool)
    | CrashAt(step: SaveStep, written: nat)

  /** The rename took place. */
  predicate Renames(fault: Fault) {
    fault.NoFault? || fault.step.Finish?
  }

  predicate Crashes(fault: Fault) {
    fault.CrashAt?
  }

  predicate StopsAt(fault: Fault, step: SaveStep) {
    !fault.NoFault? && fault.step == step
  }

  /** Nothing was written yet. */
  predicate BeforeTemp(fault: Fault) {
    StopsAt(fault, Marshal) || StopsAt(fault, MakeDir) || StopsAt(fault, CreateTemp)
  }

  /** An error after which the temporary file is removed. */
  predicate CleansUp(fault: Fault) {
    fault.ErrorAt? && fault.removed && (fault.step.Write? || fault.step.Close?)
  }

  datatype Outcome = Saved | Failed | Crashed

  function OutcomeOf(fault: Fault): Outcome {
    if Crashes(fault) then Crashed else if Renames(fault) then Saved else Failed
  }

  datatype FileName = ConfigPath | Temp(n: nat)

  class Disk {
    const codec: Codec
    var files: map<FileName, string>
    var nextTemp: nat
    ghost var committed: Config

    function Stored(): Option<string>
      reads this
    {
      if ConfigPath in files then Some(files[ConfigPath]) else None
    }

    /** The file, if any, stands for the configuration of the last completed rename. */
    ghost predicate Valid()
      reads this
    {
      && codec.RoundTrips()
      && Recovered(codec, Stored()) == Ok(committed)
      && forall n: nat :: Temp(n) in files ==> n < nextTemp
    }

    constructor (codec: Codec)
      requires codec.RoundTrips()
      ensures Valid() && committed == map[] && this.codec == codec
    {
      this.codec := codec;
      files, nextTemp, committed := map[], 0, map[];
    }

    /** Writes a temporary file of an unused name and renames it over the configuration. */
    method Save(cfg: Config, fault: Fault) returns (outcome: Outcome)
      requires Valid()
      modifies this
      ensures Valid()
      ensures committed == if Renames(fault) then cfg else old(committed)
      ensures outcome == OutcomeOf(fault)
      ensures Renames(fault) ==> files == old(files)[ConfigPath := codec.encode(cfg)]
      ensures !Renames(fault) && (BeforeTemp(fault) || CleansUp(fault)) ==> files == old(files)
      ensures !Renames(fault) ==> files - {Temp(old(nextTemp))} == old(files)
    {
      var data := codec.encode(cfg);
      assert Temp(nextTemp) !in files;
      if BeforeTemp(fault) {
        return OutcomeOf(fault);
      }
      var tmp := Temp(nextTemp);
      nextTemp := nextTemp + 1;
      var written := WriteTemp(tmp, data, fault);
      if !written || StopsAt(fault, Rename) {
        return OutcomeOf(fault);
      }
      files := (files - {tmp})[ConfigPath := data];
      committed := cfg;
      return OutcomeOf(fault);
    }

    /** Creates, writes and closes the temporary file. */
    method WriteTemp(tmp: FileName, data: string, fault: Fault) returns (written: bool)
      requires tmp.Temp? && tmp !in files
      modifies this`files
      ensures written <==> !StopsAt(fault, Write) && !StopsAt(fault, Close)
      ensures written ==> files == old(files)[tmp := data]
      ensures files - {tmp} == old(files)
      ensures CleansUp(fault) ==> tmp !in files
    {
      files := files[tmp := ""];
      if StopsAt(fault, Write) {
        files := files[tmp := if fault.written < |data| then data[..fault.written] else data];
        Discard(tmp, fault);
        return false;
      }
      files := files[tmp := data];
      if StopsAt(fault, Close) {
        Discard(tmp, fault);
        return false;
      }
      return true;
    }

    /** After an error the temporary file is removed, if that works; a crash leaves it. */
    method Discard(tmp: FileName, fault: Fault)
      requires tmp.Temp?
      modifies this`files
      ensures files == if fault.ErrorAt? && fault.removed then old(files) - {tmp} else old(files)
    {
      if fault.ErrorAt? && fault.removed {
        files := files - {tmp};
      }
    }
  }

  // ----- runs of requests, crashes and restarts, as values -----

  datatype Event = Event(request: Step, fault: Fault)

  /** The configuration in memory and the one a fresh start would read. */
  datatype Persisted = Persisted(memory: Config, disk: Config)

  /** After a crash the process starts again from the disk. */
  ghost function PersistStep(p: Persisted, e: Event): Persisted {
    if Rejected(e.request.op) then p
    else
      var memory := EagerStep(p.memory, e.request);
      var disk := if Renames(e.fault) then memory else p.disk;
      Persisted(if Crashes(e.fault) then disk else memory, disk)
  }

  ghost function PersistRun(p: Persisted, events: seq<Event>): Persisted {
    if events == [] then p
    else PersistStep(PersistRun(p, events[..|events| - 1]), events[|events| - 1])
  }

  /** An accepted request whose save reached the rename. */
  predicate Commits(e: Event) {
    !Rejected(e.request.op) && Renames(e.fault)
  }

  /** The disk holds exactly the memory of the last event that completed a rename, however many
      later events failed or crashed. */
  lemma {:induction false} DiskIsLastRename(p: Persisted, events: seq<Event>, last: int)
    requires 0 <= last < |events| && Commits(events[last])
    requires forall k :: last < k < |events| ==> !Commits(events[k])
    ensures PersistRun(p, events).disk == PersistRun(p, events[..last + 1]).memory
  {
    var n := |events| - 1;
    if last == n {
      assert events[..last + 1] == events;
    } else {
      var before := events[..n];
      assert before[..last + 1] == events[..last + 1];
      DiskIsLastRename(p, before, last);
    }
  }

  lemma {:induction false} NothingCommitted(p: Persisted, events: seq<Event>)
    requires forall k :: 0 <= k < |events| ==> !Commits(events[k])
    ensures PersistRun(p, events).disk == p.disk
  {
    if events != [] {
      NothingCommitted(p, events[..|events| - 1]);
    }
  }

  function Requests(events: seq<Event>): seq<Step> {
    seq(|events|, i requires 0 <= i < |events| => events[i].request)
  }

  /** Without faults memory and disk both follow the requests. */
  lemma {:induction false} FaultFreeRun(cfg: Config, events: seq<Event>)
    requires forall k :: 0 <= k < |events| ==> events[k].fault == NoFault
    ensures PersistRun(Persisted(cfg, cfg), events) ==
            var after := EagerRun(cfg, Requests(events)); Persisted(after, after)
  {
    if events != [] {
      var before := events[..|events| - 1];
      FaultFreeRun(cfg, before);
      assert Requests(events)[..|events| - 1] == Requests(before);
    }
  }
}

module ConfigStore {
  import opened Wrappers
  import opened Schedules
  import opened Configs
  import opened Slices
  import opened ConfigFile

  const NEW_ENTRY: UserEntry := UserEntry(Nil, None, None)

  class Store {
    const disk: Disk
    var users: Table

    ghost predicate Valid()
      reads this
    {
      Sound(users)
    }

    function View(): Config
      requires Valid()
      reads this, Arrays(users)
    {
      Contents(users)
    }

    constructor (disk: Disk)
      ensures Valid() && users == map[] && this.disk == disk
    {
      this.disk := disk;
      users := map[];
    }

    /** A missing file gives an empty configuration; one that cannot be read or parsed is an error
        and changes nothing. */
    method Load(readable: bool) returns (ok: bool)
      requires Valid()
      modifies this
      ensures Valid()
      ensures ok <==> disk.Stored().None? || (readable && Recovered(disk.codec, disk.Stored()).Ok?)
      ensures ok ==> Recovered(disk.codec, disk.Stored()) == Ok(View()) && fresh(Arrays(users))
      ensures !ok ==> users == old(users)
      ensures disk.Stored() == None ==> View() == map[]
      ensures disk.Stored().Some? && readable ==>
                var doc := disk.codec.decode(disk.Stored().value);
                && (ok <==> doc != None)
                && (doc.Some? ==> View() == if doc.value.users.Some? then doc.value.users.value else map[])
    {
      if disk.Stored().Some? && !readable {
        return false;
      }
      var cfg := Recovered(disk.codec, disk.Stored());
      if cfg.Err? {
        return false;
      }
      users := Allocate(cfg.value);
      return true;
    }

    /** A copy for readers: every schedule list in an array of its own. */
    method Get() returns (copy: Table)
      requires Valid()
      ensures Sound(copy) && Contents(copy) == View() && fresh(Arrays(copy))
    {
      copy := Allocate(View());
    }

    /** One request: the handler's change, the clean-up, the save. */
    method Update(request: Step, fault: Fault) returns (outcome: Outcome)
      requires Valid() && disk.Valid() && !Rejected(request.op)
      modifies this, Arrays(users), disk
      ensures Valid() && disk.Valid() && fresh(Arrays(users) - old(Arrays(users)))
      ensures View() == EagerStep(old(View()), request)
      ensures disk.committed == if Renames(fault) then View() else old(disk.committed)
      ensures outcome == OutcomeOf(fault)
    {
      Apply(request.op, request.requestedAt);
      CleanupExpired(request.cleanedAt);
      outcome := disk.Save(View(), fault);
    }

    /** The closures that the request handlers pass to Update. */
    method Apply(op: Op, now: Instant)
      requires Valid() && !Rejected(op)
      modifies this, Arrays(users)
      ensures Valid() && fresh(Arrays(users) - old(Arrays(users)))
      ensures View() == Mutate(old(View()), op, now)
    {
      match op
      case AddUser(name) => AddUser(name);
      case DeleteUser(name) => DeleteUser(name);
      case AddSchedule(name, s) => AddSchedule(name, s);
      case DeleteSchedule(name, index) => DeleteSchedule(name, index);
      case LockUser(name) => LockUser(name, now);
      case UnlockUser(name) => Put(name, EntryOf(name).(lockedUntil := None));
      case AddBonus(name, minutes) => AddBonus(name, minutes, now);
    }

    method AddUser(name: string)
      requires Valid()
      modifies this
      ensures Valid() && Arrays(users) == old(Arrays(users))
      ensures View() == if name in old(View()) then old(View()) else old(View())[name := NEW_USER]
    {
      if name !in users {
        Put(name, NEW_ENTRY);
      }
    }

    method DeleteUser(name: string)
      requires Valid()
      modifies this
      ensures Valid() && Arrays(users) <= old(Arrays(users))
      ensures View() == old(View()) - {name}
    {
      users := users - {name};
    }

    method LockUser(name: string, now: Instant)
      requires Valid()
      modifies this
      ensures Valid() && Arrays(users) == old(Arrays(users))
      ensures var user := UserOf(old(View()), name);
              View() == old(View())[name := user.(lockedUntil := Some(LockEnd(user.schedules, now)))]
    {
      var entry := EntryOf(name);
      var next := NextScheduleStart(Items(entry.schedules), now);
      var until := if next.Some? then next.value else FAR_FUTURE;
      Put(name, entry.(lockedUntil := Some(until)));
    }

    function EntryOf(name: string): UserEntry
      reads this
    {
      if name in users then users[name] else NEW_ENTRY
    }

    /** Writes an entry back, its schedules untouched. */
    method Put(name: string, entry: UserEntry)
      requires Valid() && entry.schedules == EntryOf(name).schedules
      modifies this
      ensures Valid() && Arrays(users) == old(Arrays(users))
      ensures View() == old(View())[name := UserAt(entry)]
    {
      ArraysAfterPut(users, name, entry);
      users := users[name := entry];
    }

    method AddSchedule(name: string, s: Schedule)
      requires Valid()
      modifies this, Arrays(users)
      ensures Valid() && fresh(Arrays(users) - old(Arrays(users)))
      ensures View() == Mutate(old(View()), Op.AddSchedule(name, s), 0)
    {
      ghost var before := View();
      var schedules := Extend(name, s);
      SetSchedules(before, name, schedules);
    }

    /** The longer list, in the same array or a new one; the other users' lists stay as they are. */
    method Extend(name: string, s: Schedule) returns (schedules: Slice)
      requires Valid()
      modifies Backing(EntryOf(name).schedules)
      ensures Valid() && Fits(schedules) && Others(old(View()), name, schedules)
      ensures Items(schedules) == old(Items(EntryOf(name).schedules)) + [s]
      ensures fresh(Backing(schedules) - Backing(EntryOf(name).schedules))
    {
      schedules := Append(EntryOf(name).schedules, s);
      assert forall m :: m in users && m != name ==> Backing(users[m].schedules) !! Backing(schedules);
    }

    method DeleteSchedule(name: string, index: int)
      requires Valid()
      modifies this, Arrays(users)
      ensures Valid() && Arrays(users) == old(Arrays(users))
      ensures View() == Mutate(old(View()), Op.DeleteSchedule(name, index), 0)
    {
      var entry := EntryOf(name);
      if 0 <= index < |Items(entry.schedules)| {
        ghost var before := View();
        var schedules := Remove(entry.schedules, index);
        SetSchedules(before, name, schedules);
      }
    }

    /** The other users still have what they had, in arrays other than this slice's. */
    ghost predicate Others(before: Config, name: string, schedules: Slice)
      requires Valid()
      reads this, Arrays(users)
    {
      && users.Keys == before.Keys
      && forall m :: m in users && m != name ==>
           UserAt(users[m]) == before[m] && Backing(users[m].schedules) !! Backing(schedules)
    }

    /** Writes a user back with an edited schedule list. */
    method SetSchedules(ghost before: Config, name: string, schedules: Slice)
      requires Valid() && Fits(schedules) && Others(before, name, schedules)
      modifies this
      ensures Valid() && Arrays(users) <= old(Arrays(users)) + Backing(schedules)
      ensures Backing(schedules) == Backing(old(EntryOf(name)).schedules) ==> Arrays(users) == old(Arrays(users))
      ensures View() == before[name := UserAt(old(EntryOf(name)).(schedules := schedules))]
    {
      var entry := EntryOf(name).(schedules := schedules);
      ReplacesOne(users, before, name, entry);
      ArraysAfterPut(users, name, entry);
      users := users[name := entry];
    }

    method AddBonus(name: string, minutes: int, now: Instant)
      requires Valid()
      modifies this
      ensures Valid() && Arrays(users) == old(Arrays(users))
      ensures var user := UserOf(old(View()), name);
              View() == old(View())[name := user.(lockedUntil := None,
                                                  bonusUntil := Some(BonusBase(user, now) + Length(minutes)))]
    {
      var entry := EntryOf(name);
      var bonusEnd := ComputeBonusEnd(UserAt(entry), minutes, now);
      Put(name, entry.(lockedUntil := None, bonusUntil := Some(bonusEnd)));
    }

    /** Clears the fields of every user whose time has passed. */
    method CleanupExpired(now: Instant)
      requires Valid()
      modifies this
      ensures Valid() && Arrays(users) == old(Arrays(users))
      ensures View() == Cleanup(old(View()), now)
    {
      ghost var before := users;
      var todo := users.Keys;
      while todo != {}
        invariant todo <= users.Keys == before.Keys
        invariant forall m :: m in todo ==> users[m] == before[m]
        invariant forall m :: m in users && m !in todo ==> users[m] == ExpireEntry(before[m], now)
      {
        var name := Pick(todo);
        var entry := users[name];
        var changed := false;
        if entry.lockedUntil.Some? && entry.lockedUntil.value < now {
          entry, changed := entry.(lockedUntil := None), true;
        }
        if entry.bonusUntil.Some? && entry.bonusUntil.value < now {
          entry, changed := entry.(bonusUntil := None), true;
        }
        if changed {
          users := users[name := entry];
        }
        todo := todo - {name};
      }
    }
  }

  method ComputeBonusEnd(user: User, minutes: int, now: Instant) returns (bonusEnd: Instant)
    ensures bonusEnd == BonusBase(user, now) + Length(minutes)
  {
    if user.bonusUntil.Some? && now < user.bonusUntil.value {
      return user.bonusUntil.value + Length(minutes);
    }
    var end := ScheduleEndTime(user.schedules, now);
    bonusEnd := (if end.Some? then end.value else now) + Length(minutes);
  }

  function ExpireEntry(e: UserEntry, now: Instant): UserEntry {
    e.(lockedUntil := Expire(e.lockedUntil, now), bonusUntil := Expire(e.bonusUntil, now))
  }

  ghost function StateOf(store: Store): Persisted
    requires store.Valid()
    reads store, store.disk, Arrays(store.users)
  {
    Persisted(store.View(), store.disk.committed)
  }

  /** One event; a crash leads to a new store, loaded from the disk. */
  method Handle(store: Store, e: Event) returns (next: Store)
    requires store.Valid() && store.disk.Valid()
    modifies store, Arrays(store.users), store.disk
    ensures next.Valid() && next.disk == store.disk && next.disk.Valid()
    ensures next == store || fresh(next)
    ensures fresh(Arrays(next.users) - old(Arrays(store.users)))
    ensures StateOf(next) == PersistStep(old(StateOf(store)), e)
  {
    next := store;
    if !Rejected(e.request.op) {
      var outcome := store.Update(e.request, e.fault);
      if outcome == Crashed {
        next := new Store(store.disk);
        var ok := next.Load(true);
      }
    }
  }

  /** Any run of requests, errors, crashes and restarts does to memory and disk exactly what the
      run of values does. */
  method RunStore(first: Store, events: seq<Event>) returns (store: Store)
    requires first.Valid() && first.disk.Valid()
    modifies first, Arrays(first.users), first.disk
    ensures store.Valid() && store.disk == first.disk && store.disk.Valid()
    ensures store == first || fresh(store)
    ensures fresh(Arrays(store.users) - old(Arrays(first.users)))
    ensures StateOf(store) == PersistRun(old(StateOf(first)), events)
  {
    store := first;
    for k := 0 to |events|
      invariant store.Valid() && store.disk == first.disk && store.disk.Valid()
      invariant store == first || fresh(store)
      invariant fresh(Arrays(store.users) - old(Arrays(first.users)))
      invariant StateOf(store) == PersistRun(old(StateOf(first)), events[..k])
    {
      assert events[..k + 1][..k] == events[..k];
      store := Handle(store, events[k]);
    }
    assert events[..|events|] == events;
  }

  /** A snapshot keeps its schedule lists through any later run on the live store. */
  method SnapshotIsolated(first: Store, events: seq<Event>) returns (snapshot: Table, store: Store)
    requires first.Valid() && first.disk.Valid()
    modifies first, Arrays(first.users), first.disk
    ensures Sound(snapshot) && Contents(snapshot) == old(first.View())
    ensures Arrays(snapshot) !! Arrays(store.users) && fresh(Arrays(snapshot))
    ensures store == first || fresh(store)
    ensures fresh(Arrays(store.users) - old(Arrays(first.users)))
    ensures store.Valid() && StateOf(store) == PersistRun(old(StateOf(first)), events)
  {
    snapshot := first.Get();
    store := RunStore(first, events);
  }
}
