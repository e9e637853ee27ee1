// The configuration as a value: the access decision, the administrator's operations and the
// clean-up of expired fields, over whole runs (internal/config/schedule.go,
// internal/config/store.go, internal/server/handlers.go).

module Configs {
  import opened Wrappers
  import opened Text
  import opened Schedules

  datatype User = User(schedules: seq<Schedule>, lockedUntil: Option<Instant>, bonusUntil: Option<Instant>)

  type Config = map<string, User>

  const NEW_USER: User := User([], None, None)

  // ----- access -----

  predicate InForce(until: Option<Instant>, t: Instant) {
    until.Some? && t < until.value
  }

  /** Lock beats bonus beats "no schedules" beats the schedules. */
  predicate IsAllowed(name: string, cfg: Config, t: Instant) {
    name in cfg ==>
      var user := cfg[name];
      if InForce(user.lockedUntil, t) then false
      else if InForce(user.bonusUntil, t) then true
      else |user.schedules| == 0 || InSchedule(user.schedules, t)
  }

  // ----- operations -----

  datatype Op =
    | AddUser(name: string)
    | DeleteUser(name: string)
    | AddSchedule(name: string, schedule: Schedule)
    | DeleteSchedule(name: string, index: int)
    | LockUser(name: string)
    | UnlockUser(name: string)
    | AddBonus(name: string, minutes: int)

  /** Refused before the store is touched. */
  predicate Rejected(op: Op) {
    match op
    case AddUser(name) => name == ""
    case AddSchedule(_, s) => s.days == [] || s.from == "" || s.to == ""
    case AddBonus(_, minutes) => !(0 < minutes <= MAX_INT64)
    case _ => false
  }

  /** The zero value stands for a missing user. */
  function UserOf(cfg: Config, name: string): User {
    if name in cfg then cfg[name] else NEW_USER
  }

  function Without(schedules: seq<Schedule>, index: int): seq<Schedule> {
    if 0 <= index < |schedules| then schedules[..index] + schedules[index + 1..] else schedules
  }

  /** 9999-01-01 00:00. */
  const FAR_FUTURE: Instant := 253_370_764_800_000_000_000

  ghost function LockEnd(schedules: seq<Schedule>, now: Instant): Instant {
    var next := NextStart(schedules, now);
    if next.Some? then next.value else FAR_FUTURE
  }

  /** A number of minutes as a 64-bit count of nanoseconds. */
  function Length(minutes: int): int {
    Wrap64(minutes * 60_000_000_000)
  }

  function BonusBase(user: User, now: Instant): Instant {
    if InForce(user.bonusUntil, now) then user.bonusUntil.value
    else
      var end := WindowEnd(user.schedules, now);
      if end.Some? then end.value else now
  }

  ghost function Mutate(cfg: Config, op: Op, now: Instant): Config {
    var user := UserOf(cfg, op.name);
    match op
    case AddUser(name) => if name in cfg then cfg else cfg[name := NEW_USER]
    case DeleteUser(name) => cfg - {name}
    case AddSchedule(name, s) => cfg[name := user.(schedules := user.schedules + [s])]
    case DeleteSchedule(name, index) =>
      if 0 <= index < |user.schedules| then cfg[name := user.(schedules := Without(user.schedules, index))] else cfg
    case LockUser(name) => cfg[name := user.(lockedUntil := Some(LockEnd(user.schedules, now)))]
    case UnlockUser(name) => cfg[name := user.(lockedUntil := None)]
    case AddBonus(name, minutes) =>
      cfg[name := user.(lockedUntil := None, bonusUntil := Some(BonusBase(user, now) + Length(minutes)))]
  }

  /** No operation changes a user other than the one it names. */
  lemma OthersUntouched(cfg: Config, op: Op, now: Instant, other: string)
    requires other != op.name
    ensures other in Mutate(cfg, op, now) <==> other in cfg
    ensures other in cfg ==> Mutate(cfg, op, now)[other] == cfg[other]
  {
  }

  /** Deleting the schedule at the end undoes adding one; a user who did not exist stays. */
  lemma DeleteUndoesAdd(cfg: Config, name: string, s: Schedule, now: Instant)
    ensures var added := Mutate(cfg, AddSchedule(name, s), now);
            Mutate(added, DeleteSchedule(name, |UserOf(cfg, name).schedules|), now)
            == Mutate(cfg, AddUser(name), now)
  {
    var schedules := UserOf(cfg, name).schedules;
    assert Without(schedules + [s], |schedules|) == schedules;
  }

  // ----- clean-up and runs -----

  function Expire(until: Option<Instant>, t: Instant): Option<Instant> {
    if until.Some? && until.value < t then None else until
  }

  function ExpireUser(user: User, t: Instant): User {
    user.(lockedUntil := Expire(user.lockedUntil, t), bonusUntil := Expire(user.bonusUntil, t))
  }

  function Cleanup(cfg: Config, t: Instant): Config {
    map name | name in cfg :: ExpireUser(cfg[name], t)
  }

  /** A request: its own clock reading, and the later one its clean-up takes. */
  datatype Step = Step(op: Op, requestedAt: Instant, cleanedAt: Instant)

  ghost function LazyStep(cfg: Config, s: Step): Config {
    if Rejected(s.op) then cfg else Mutate(cfg, s.op, s.requestedAt)
  }

  ghost function EagerStep(cfg: Config, s: Step): Config {
    if Rejected(s.op) then cfg else Cleanup(Mutate(cfg, s.op, s.requestedAt), s.cleanedAt)
  }

  ghost function LazyRun(cfg: Config, steps: seq<Step>): Config {
    if steps == [] then cfg
    else LazyStep(LazyRun(cfg, steps[..|steps| - 1]), steps[|steps| - 1])
  }

  ghost function EagerRun(cfg: Config, steps: seq<Step>): Config {
    if steps == [] then cfg
    else EagerStep(EagerRun(cfg, steps[..|steps| - 1]), steps[|steps| - 1])
  }

  // ----- eager clean-up is invisible -----

  function Live(until: Option<Instant>, t: Instant): Option<Instant> {
    if InForce(until, t) then until else None
  }

  predicate AgreeOn(u: User, v: User, t: Instant) {
    && u.schedules == v.schedules
    && Live(u.lockedUntil, t) == Live(v.lockedUntil, t)
    && Live(u.bonusUntil, t) == Live(v.bonusUntil, t)
  }

  /** The two configurations differ only in fields that have expired by `t`. */
  ghost predicate Agree(a: Config, b: Config, t: Instant) {
    && a.Keys == b.Keys
    && forall name :: name in a ==> AgreeOn(a[name], b[name], t)
  }

  lemma AgreeLater(a: Config, b: Config, t: Instant, later: Instant)
    requires Agree(a, b, t) && t <= later
    ensures Agree(a, b, later)
  {
  }

  lemma MutateAgrees(a: Config, b: Config, op: Op, now: Instant, t: Instant)
    requires Agree(a, b, t) && t <= now
    ensures Agree(Mutate(a, op, now), Mutate(b, op, now), t)
  {
    var u, v := UserOf(a, op.name), UserOf(b, op.name);
    assert AgreeOn(u, v, t);
    assert BonusBase(u, now) == BonusBase(v, now);
  }

  lemma CleanupAgrees(a: Config, b: Config, cleanedAt: Instant, t: Instant)
    requires Agree(a, b, t) && cleanedAt <= t + 1
    ensures Agree(Cleanup(a, cleanedAt), b, t)
  {
  }

  /** Each request's clock is later than any field that an earlier clean-up found expired. */
  predicate ClocksOrdered(steps: seq<Step>) {
    forall i, j :: 0 <= i < j < |steps| ==> steps[i].cleanedAt <= steps[j].requestedAt + 1
  }

  predicate CleanedBy(steps: seq<Step>, t: Instant) {
    forall i :: 0 <= i < |steps| ==> steps[i].cleanedAt <= t
  }

  lemma {:induction false} EagerAgreesWithLazy(cfg: Config, steps: seq<Step>, t: Instant)
    requires ClocksOrdered(steps) && CleanedBy(steps, t + 1)
    ensures Agree(EagerRun(cfg, steps), LazyRun(cfg, steps), t)
  {
    if steps != [] {
      var before, s := steps[..|steps| - 1], steps[|steps| - 1];
      var start := if t < s.requestedAt then t else s.requestedAt;
      EagerAgreesWithLazy(cfg, before, start);
      var a, b := EagerRun(cfg, before), LazyRun(cfg, before);
      if Rejected(s.op) {
        AgreeLater(a, b, start, t);
      } else {
        MutateAgrees(a, b, s.op, s.requestedAt, start);
        AgreeLater(Mutate(a, s.op, s.requestedAt), Mutate(b, s.op, s.requestedAt), start, t);
        CleanupAgrees(Mutate(a, s.op, s.requestedAt), Mutate(b, s.op, s.requestedAt), s.cleanedAt, t);
      }
    }
  }

  /** No access decision, now or later, shows whether expired fields were cleaned up. */
  lemma CleanupInvisible(cfg: Config, steps: seq<Step>, name: string, t: Instant)
    requires ClocksOrdered(steps) && CleanedBy(steps, t + 1)
    ensures IsAllowed(name, EagerRun(cfg, steps), t) == IsAllowed(name, LazyRun(cfg, steps), t)
  {
    EagerAgreesWithLazy(cfg, steps, t);
  }

  const NEVER: Schedule := Schedule(["never"], "24:00", "24:00")

  lemma NeverOpens(t: Instant)
    ensures !InSchedule([NEVER], t) && WindowEnd([NEVER], t) == None
  {
  }

  lemma TwoSteps(cfg: Config, s: Step, u: Step)
    ensures EagerRun(cfg, [s, u]) == EagerStep(EagerStep(cfg, s), u)
    ensures LazyRun(cfg, [s, u]) == LazyStep(LazyStep(cfg, s), u)
  {
    assert [s, u][..1] == [s] && [s][..0] == [];
    assert EagerRun(cfg, [s]) == EagerStep(cfg, s) && LazyRun(cfg, [s]) == LazyStep(cfg, s);
  }

  /** Granting to a user whose schedules never open. */
  lemma GrantOutside(cfg: Config, name: string, now: Instant, minutes: int)
    requires name in cfg && cfg[name].schedules == [NEVER] && 0 < minutes <= MAX_BONUS
    ensures var bonus := cfg[name].bonusUntil;
            var end := (if InForce(bonus, now) then bonus.value else now) + minutes * 60_000_000_000;
            Mutate(cfg, AddBonus(name, minutes), now) == cfg[name := User([NEVER], None, Some(end))]
  {
    NeverOpens(now);
    LengthExact(minutes);
  }

  /** A grant that read its clock before an earlier request's clean-up can tell: the bonus still
      in force by that clock is gone, so the grant is not added to it and ends too early. */
  lemma StaleClockSeesCleanup(cfg: Config, name: string, first: Step, grant: Step, bonus: Instant, t: Instant)
    requires name in cfg && cfg[name] == User([NEVER], None, Some(bonus))
    requires first.op == UnlockUser(name) && grant.op.AddBonus? && grant.op.name == name
    requires 0 < grant.op.minutes <= MAX_BONUS
    requires grant.requestedAt < bonus < first.cleanedAt
    requires grant.requestedAt + grant.op.minutes * 60_000_000_000 <= t < bonus + grant.op.minutes * 60_000_000_000
    requires first.cleanedAt <= t && grant.cleanedAt <= t
    ensures !IsAllowed(name, EagerRun(cfg, [first, grant]), t)
    ensures IsAllowed(name, LazyRun(cfg, [first, grant]), t)
  {
    TwoSteps(cfg, first, grant);
    NeverOpens(t);
    GrantOutside(LazyStep(cfg, first), name, grant.requestedAt, grant.op.minutes);
    assert EagerStep(cfg, first)[name] == User([NEVER], None, None);
    GrantOutside(EagerStep(cfg, first), name, grant.requestedAt, grant.op.minutes);
  }

  // ----- exactly which clocks keep it invisible -----

  datatype Clock = Clock(requestedAt: Instant, cleanedAt: Instant)

  function ClocksOf(steps: seq<Step>): seq<Clock> {
    seq(|steps|, i requires 0 <= i < |steps| => Clock(steps[i].requestedAt, steps[i].cleanedAt))
  }

  predicate InOrder(clocks: seq<Clock>) {
    forall i, j :: 0 <= i < j < |clocks| ==> clocks[i].cleanedAt <= clocks[j].requestedAt + 1
  }

  /** No request takes 292 years, the longest time a duration can hold. */
  predicate WithinDuration(clocks: seq<Clock>) {
    forall i :: 0 <= i < |clocks| ==> clocks[i].cleanedAt - clocks[i].requestedAt < MAX_BONUS * 60_000_000_000
  }

  /** Whatever is requested at these times, or at the first of them, and of whatever configuration,
      no access decision shows whether expired fields were cleaned up. */
  ghost predicate Invisible(clocks: seq<Clock>) {
    forall cfg: Config, steps: seq<Step>, name: string, t: Instant ::
      ClocksOf(steps) <= clocks && CleanedBy(steps, t + 1) ==>
        IsAllowed(name, EagerRun(cfg, steps), t) == IsAllowed(name, LazyRun(cfg, steps), t)
  }

  lemma {:induction false} RejectedDoNothing(cfg: Config, steps: seq<Step>, low: int, high: int)
    requires 0 <= low <= high <= |steps|
    requires forall k :: low <= k < high ==> Rejected(steps[k].op)
    ensures EagerRun(cfg, steps[..high]) == EagerRun(cfg, steps[..low])
    ensures LazyRun(cfg, steps[..high]) == LazyRun(cfg, steps[..low])
    decreases high
  {
    if low < high {
      RejectedDoNothing(cfg, steps, low, high - 1);
      assert steps[..high][..high - 1] == steps[..high - 1];
    }
  }

  /** A run in which all requests but two are rejected. */
  lemma OnlyTwoAct(cfg: Config, steps: seq<Step>, i: int, j: int)
    requires 0 <= i < j < |steps|
    requires forall k :: 0 <= k < |steps| && k != i && k != j ==> Rejected(steps[k].op)
    ensures EagerRun(cfg, steps) == EagerRun(cfg, [steps[i], steps[j]])
    ensures LazyRun(cfg, steps) == LazyRun(cfg, [steps[i], steps[j]])
  {
    TwoSteps(cfg, steps[i], steps[j]);
    RejectedDoNothing(cfg, steps, 0, i);
    assert steps[..0] == [];
    assert steps[..i + 1][..i] == steps[..i];
    RejectedDoNothing(cfg, steps, i + 1, j);
    assert steps[..j + 1][..j] == steps[..j];
    RejectedDoNothing(cfg, steps, j + 1, |steps|);
    assert steps[..|steps|] == steps;
  }

  /** An unlock and a grant, and otherwise requests that are rejected. */
  function UnlockThenGrant(clocks: seq<Clock>, name: string, i: int, j: int): seq<Step> {
    seq(|clocks|, k requires 0 <= k < |clocks| =>
      Step(if k == i then UnlockUser(name) else if k == j then AddBonus(name, MAX_BONUS) else AddUser(""),
           clocks[k].requestedAt, clocks[k].cleanedAt))
  }

  /** The request before the j-th whose clean-up read the latest clock. */
  lemma LatestBefore(clocks: seq<Clock>, j: int) returns (i: int)
    requires 0 < j <= |clocks|
    ensures 0 <= i < j && forall k :: 0 <= k < j ==> clocks[k].cleanedAt <= clocks[i].cleanedAt
    decreases j
  {
    i := 0;
    if j > 1 {
      i := LatestBefore(clocks, j - 1);
      i := if clocks[i].cleanedAt <= clocks[j - 1].cleanedAt then j - 1 else i;
    }
  }

  lemma OutOfOrderIsSeen(clocks: seq<Clock>, i: int, j: int)
    requires WithinDuration(clocks) && 0 <= i < j < |clocks|
    requires forall k :: 0 <= k < j ==> clocks[k].cleanedAt <= clocks[i].cleanedAt
    requires clocks[i].cleanedAt > clocks[j].requestedAt + 1
    ensures !Invisible(clocks)
  {
    var name := "a";
    var first := clocks[..j + 1];
    var steps := UnlockThenGrant(first, name, i, j);
    var bonus := clocks[i].cleanedAt - 1;
    var cfg := map[name := User([NEVER], None, Some(bonus))];
    var t := bonus - 1 + MAX_BONUS * 60_000_000_000;
    StaleClockSeesCleanup(cfg, name, steps[i], steps[j], bonus, t);
    OnlyTwoAct(cfg, steps, i, j);
    assert ClocksOf(steps) == first;
    assert CleanedBy(steps, t + 1);
    assert IsAllowed(name, EagerRun(cfg, steps), t) != IsAllowed(name, LazyRun(cfg, steps), t);
  }

  /** Clean-up is invisible exactly when no request reads its clock more than a nanosecond
      before an earlier request's clean-up. */
  lemma CleanupInvisibleExactly(clocks: seq<Clock>)
    requires WithinDuration(clocks)
    ensures Invisible(clocks) <==> InOrder(clocks)
  {
    if InOrder(clocks) {
      forall cfg: Config, steps: seq<Step>, name: string, t: Instant
        | ClocksOf(steps) <= clocks && CleanedBy(steps, t + 1)
        ensures IsAllowed(name, EagerRun(cfg, steps), t) == IsAllowed(name, LazyRun(cfg, steps), t)
      {
        assert ClocksOrdered(steps) by {
          forall i, j | 0 <= i < j < |steps| ensures steps[i].cleanedAt <= steps[j].requestedAt + 1 {
            assert ClocksOf(steps)[i] == clocks[i] && ClocksOf(steps)[j] == clocks[j];
            assert clocks[i].cleanedAt <= clocks[j].requestedAt + 1;
          }
        }
        CleanupInvisible(cfg, steps, name, t);
      }
    } else {
      var k, j :| 0 <= k < j < |clocks| && clocks[k].cleanedAt > clocks[j].requestedAt + 1;
      var i := LatestBefore(clocks, j);
      OutOfOrderIsSeen(clocks, i, j);
    }
  }

  // ----- the lock guarantee -----

  /** May end a lock of `name`, or move its end. */
  predicate EndsLock(op: Op, name: string) {
    op.name == name && !Rejected(op) && (op.LockUser? || op.UnlockUser? || op.AddBonus? || op.DeleteUser?)
  }

  lemma {:induction false} LockSurvives(cfg: Config, name: string, steps: seq<Step>, end: Instant)
    requires name in cfg && cfg[name].lockedUntil == Some(end)
    requires CleanedBy(steps, end)
    requires forall i :: 0 <= i < |steps| ==> !EndsLock(steps[i].op, name)
    ensures name in EagerRun(cfg, steps) && EagerRun(cfg, steps)[name].lockedUntil == Some(end)
  {
    if steps != [] {
      LockSurvives(cfg, name, steps[..|steps| - 1], end);
    }
  }

  /** A lock denies access at every instant up to its end, whatever bonus is stored and
      whatever else the administrator does, unless the lock itself is lifted or renewed. */
  lemma LockHolds(cfg: Config, name: string, lock: Step, steps: seq<Step>, t: Instant)
    requires var end := LockEnd(UserOf(cfg, name).schedules, lock.requestedAt);
             lock.cleanedAt <= end && CleanedBy(steps, end) && t < end
    requires lock.op == LockUser(name)
    requires forall i :: 0 <= i < |steps| ==> !EndsLock(steps[i].op, name)
    ensures !IsAllowed(name, EagerRun(EagerStep(cfg, lock), steps), t)
  {
    LockInPlace(cfg, name, lock);
    LockSurvives(EagerStep(cfg, lock), name, steps, LockEnd(UserOf(cfg, name).schedules, lock.requestedAt));
  }

  /** Locking again before the lock ends gives the same end. */
  lemma RenewalKeepsEnd(schedules: seq<Schedule>, now: Instant, later: Instant)
    requires now <= later < LockEnd(schedules, now)
    ensures LockEnd(schedules, later) == LockEnd(schedules, now)
  {
  }

  /** Of the user's own requests, only renewals of the lock before it ends. */
  predicate OnlyRenews(s: Step, name: string, now: Instant, end: Instant) {
    s.op.name == name && !Rejected(s.op) ==> s.op.AddUser? || (s.op.LockUser? && now <= s.requestedAt < end)
  }

  lemma {:induction false} RenewalsSurvive(cfg: Config, name: string, now: Instant, steps: seq<Step>)
    requires name in cfg && cfg[name].lockedUntil == Some(LockEnd(cfg[name].schedules, now))
    requires CleanedBy(steps, LockEnd(cfg[name].schedules, now))
    requires forall i :: 0 <= i < |steps| ==> OnlyRenews(steps[i], name, now, LockEnd(cfg[name].schedules, now))
    ensures name in EagerRun(cfg, steps) && EagerRun(cfg, steps)[name].schedules == cfg[name].schedules
    ensures EagerRun(cfg, steps)[name].lockedUntil == cfg[name].lockedUntil
  {
    if steps != [] {
      var n := |steps| - 1;
      RenewalsSurvive(cfg, name, now, steps[..n]);
      assert OnlyRenews(steps[n], name, now, LockEnd(cfg[name].schedules, now));
      if steps[n].op == LockUser(name) {
        RenewalKeepsEnd(cfg[name].schedules, now, steps[n].requestedAt);
      }
    }
  }

  /** Renewing a lock any number of times before it ends neither shortens nor extends it. */
  lemma RenewedLockHolds(cfg: Config, name: string, lock: Step, steps: seq<Step>, t: Instant)
    requires var end := LockEnd(UserOf(cfg, name).schedules, lock.requestedAt);
             && lock.cleanedAt <= end && CleanedBy(steps, end) && t < end
             && forall i :: 0 <= i < |steps| ==> OnlyRenews(steps[i], name, lock.requestedAt, end)
    requires lock.op == LockUser(name)
    ensures var after := EagerRun(EagerStep(cfg, lock), steps);
            && !IsAllowed(name, after, t)
            && after[name].lockedUntil == Some(LockEnd(UserOf(cfg, name).schedules, lock.requestedAt))
  {
    LockInPlace(cfg, name, lock);
    RenewalsSurvive(EagerStep(cfg, lock), name, lock.requestedAt, steps);
  }

  /** Without a usable start the lock runs to the sentinel; otherwise to the next start. */
  lemma LockEndMeaning(schedules: seq<Schedule>, now: Instant)
    ensures !AnyUsable(schedules) ==> LockEnd(schedules, now) == FAR_FUTURE
    ensures AnyUsable(schedules) ==> IsNextStart(schedules, now, LockEnd(schedules, now))
  {
  }

  // ----- the sentinel by the calendar -----

  predicate Leap(year: int) {
    year % 4 == 0 && (year % 100 != 0 || year % 400 == 0)
  }

  /** The number of leap years from one year to before another. */
  function LeapYears(from: int, until: int): int
    decreases until - from
  {
    if until <= from then 0 else LeapYears(from, until - 1) + if Leap(until - 1) then 1 else 0
  }

  lemma {:induction false} LeapYearsCount(from: int, until: int)
    requires 1 <= from <= until
    ensures LeapYears(from, until) == (until - 1) / 4 - (until - 1) / 100 + (until - 1) / 400
                                      - ((from - 1) / 4 - (from - 1) / 100 + (from - 1) / 400)
    decreases until
  {
    if from < until {
      LeapYearsCount(from, until - 1);
      LeapStep(until - 1);
    }
  }

  lemma LeapStep(year: int)
    requires 1 <= year
    ensures year / 4 - (year - 1) / 4 == if year % 4 == 0 then 1 else 0
    ensures year / 100 - (year - 1) / 100 == if year % 100 == 0 then 1 else 0
    ensures year / 400 - (year - 1) / 400 == if year % 400 == 0 then 1 else 0
    ensures year % 400 == 0 ==> year % 100 == 0
    ensures year % 100 == 0 ==> year % 4 == 0
  {
  }

  /** The first instant of a year since 1970. */
  function NewYear(year: int): Instant {
    At(365 * (year - 1970) + LeapYears(1970, year), 0)
  }

  lemma SentinelIsNewYear()
    ensures FAR_FUTURE == NewYear(9999)
  {
    LeapYearsCount(1970, 9999);
    assert LeapYears(1970, 9999) == 1947;
    assert At(365 * 8029 + 1947, 0) == FAR_FUTURE;
  }

  /** A lock of a user without a usable start denies access to the year 9999. */
  lemma LockWithoutStart(cfg: Config, name: string, lock: Step, steps: seq<Step>)
    requires lock.op == LockUser(name) && !AnyUsable(UserOf(cfg, name).schedules)
    requires lock.cleanedAt <= NewYear(9999) && CleanedBy(steps, NewYear(9999))
    requires forall i :: 0 <= i < |steps| ==> !EndsLock(steps[i].op, name)
    ensures var after := EagerRun(EagerStep(cfg, lock), steps);
            && name in after && after[name].lockedUntil == Some(NewYear(9999))
            && forall t :: t < NewYear(9999) ==> !IsAllowed(name, after, t)
  {
    SentinelIsNewYear();
    LockEndMeaning(UserOf(cfg, name).schedules, lock.requestedAt);
    LockInPlace(cfg, name, lock);
    LockSurvives(EagerStep(cfg, lock), name, steps, NewYear(9999));
  }

  // ----- the other operations, seen from access -----

  /** An unlock, and then any requests but a lock: the user, while there is one, has no lock. */
  lemma {:induction false} StaysUnlocked(cfg: Config, name: string, steps: seq<Step>)
    requires name in cfg ==> cfg[name].lockedUntil == None
    requires forall i :: 0 <= i < |steps| ==> steps[i].op != LockUser(name)
    ensures var after := EagerRun(cfg, steps); name in after ==> after[name].lockedUntil == None
  {
    if steps != [] {
      StaysUnlocked(cfg, name, steps[..|steps| - 1]);
    }
  }

  /** So access is what bonus and schedules say. */
  lemma UnlockLifts(cfg: Config, name: string, unlock: Step, steps: seq<Step>, t: Instant)
    requires unlock.op == UnlockUser(name)
    requires forall i :: 0 <= i < |steps| ==> steps[i].op != LockUser(name)
    ensures var after := EagerRun(EagerStep(cfg, unlock), steps);
            name in after ==>
              && after[name].lockedUntil == None
              && (IsAllowed(name, after, t) <==>
                  || (after[name].bonusUntil.Some? && t < after[name].bonusUntil.value)
                  || after[name].schedules == [] || InSchedule(after[name].schedules, t))
  {
    StaysUnlocked(EagerStep(cfg, unlock), name, steps);
  }

  /** Requests for others leave the user's schedules, and the bonus until it expires. */
  lemma {:induction false} OthersKeepUser(cfg: Config, name: string, steps: seq<Step>, t: Instant)
    requires name in cfg && CleanedBy(steps, t + 1)
    requires forall i :: 0 <= i < |steps| ==> steps[i].op.name != name
    ensures var after := EagerRun(cfg, steps); name in after && AgreeOn(after[name], cfg[name], t)
  {
    if steps != [] {
      OthersKeepUser(cfg, name, steps[..|steps| - 1], t);
    }
  }

  /** An unlock changes nothing but the lock. */
  lemma UnlockKeepsRest(cfg: Config, name: string, unlock: Step, steps: seq<Step>, t: Instant)
    requires unlock.op == UnlockUser(name) && unlock.cleanedAt <= t + 1 && CleanedBy(steps, t + 1)
    requires forall i :: 0 <= i < |steps| ==> steps[i].op.name != name
    ensures var after := EagerRun(EagerStep(cfg, unlock), steps);
            && name in after && after[name].schedules == UserOf(cfg, name).schedules
            && after[name].lockedUntil == None
            && (InForce(UserOf(cfg, name).bonusUntil, t) ==> after[name].bonusUntil == UserOf(cfg, name).bonusUntil)
            && (!InForce(UserOf(cfg, name).bonusUntil, t) ==> !InForce(after[name].bonusUntil, t))
  {
    OthersKeepUser(EagerStep(cfg, unlock), name, steps, t);
    StaysUnlocked(EagerStep(cfg, unlock), name, steps);
  }

  /** A deleted user is gone, and so no longer restricted, until named again. */
  lemma {:induction false} DeleteRemoves(cfg: Config, name: string, delete: Step, steps: seq<Step>)
    requires delete.op == DeleteUser(name)
    requires forall i :: 0 <= i < |steps| ==> steps[i].op.name != name
    ensures var after := EagerRun(EagerStep(cfg, delete), steps);
            name !in after && forall t :: IsAllowed(name, after, t)
  {
    if steps != [] {
      DeleteRemoves(cfg, name, delete, steps[..|steps| - 1]);
    }
  }

  /** A new user has no schedules and is allowed at any time. */
  lemma AddedUserIsFree(cfg: Config, name: string, add: Step)
    requires add.op == AddUser(name) && name != "" && name !in cfg
    ensures var after := EagerStep(cfg, add);
            name in after && after[name].schedules == [] && forall t :: IsAllowed(name, after, t)
  {
  }

  /** The first schedule of a user restricts access, each further one adds to it. */
  lemma AddedScheduleAllows(cfg: Config, name: string, s: Schedule, add: Step, t: Instant)
    requires add.op == AddSchedule(name, s) && s.days != [] && s.from != "" && s.to != ""
    requires add.cleanedAt <= t + 1
    requires !InForce(UserOf(cfg, name).lockedUntil, t) && !InForce(UserOf(cfg, name).bonusUntil, t)
    ensures var after, before := EagerStep(cfg, add), UserOf(cfg, name).schedules;
            && name in after && after[name].schedules == before + [s]
            && (IsAllowed(name, after, t) <==> Active(s, t) || InSchedule(before, t))
  {
    var before := UserOf(cfg, name).schedules;
    var more := before + [s];
    assert more[|before|] == s;
    assert InSchedule(more, t) <==> Active(s, t) || InSchedule(before, t) by {
      if i :| 0 <= i < |before| && Active(before[i], t) {
        assert more[i] == before[i];
      }
    }
  }

  /** Deleting by position takes out that schedule and keeps the order of the others; a position
      outside the list takes out none. */
  lemma DeletedScheduleIsGone(cfg: Config, name: string, index: int, delete: Step, k: int)
    requires name in cfg && delete.op == DeleteSchedule(name, index)
    ensures var before, after := cfg[name].schedules, EagerStep(cfg, delete)[name].schedules;
            if 0 <= index < |before| then
              |after| == |before| - 1 && (0 <= k < |after| ==> after[k] == before[if k < index then k else k + 1])
            else after == before
  {
  }

  /** What is refused changes nothing. */
  lemma RefusedChangesNothing(cfg: Config, s: Step)
    requires match s.op
             case AddUser(name) => name == ""
             case AddSchedule(_, schedule) => schedule.days == [] || schedule.from == "" || schedule.to == ""
             case AddBonus(_, minutes) => minutes < 1 || minutes > MAX_INT64
             case _ => false
    ensures EagerStep(cfg, s) == cfg
  {
  }

  /** Some schedule of that weekday is open at that minute. */
  predicate Covered(schedules: seq<Schedule>, day: string, minute: int) {
    exists j :: 0 <= j < |schedules| && HasDay(schedules[j].days, day)
      && ParseTime(schedules[j].from).Some? && ParseTime(schedules[j].to).Some?
      && ParseTime(schedules[j].from).value <= minute < ParseTime(schedules[j].to).value
  }

  /** Every start that the search may pick lies inside some window. */
  predicate StartsCovered(schedules: seq<Schedule>) {
    forall i, k :: 0 <= i < |schedules| && 0 <= k < 7 && HasDay(schedules[i].days, WEEKDAYS[k])
      && ParseTime(schedules[i].from).Some?
      ==> Covered(schedules, WEEKDAYS[k], ParseTime(schedules[i].from).value)
  }

  lemma CoveredIsInSchedule(schedules: seq<Schedule>, t: Instant)
    ensures Covered(schedules, DayName(DayOf(t)), MinuteOf(t)) <==> InSchedule(schedules, t)
  {
  }

  lemma StartIsInSchedule(schedules: seq<Schedule>, t: Instant)
    requires StartsCovered(schedules) && IsStart(schedules, t)
    ensures InSchedule(schedules, t)
  {
    var i :| 0 <= i < |schedules| && StartsAt(schedules[i], t);
    var k := (DayOf(t) + 3) % 7;
    assert HasDay(schedules[i].days, WEEKDAYS[k]);
    ParseTimeRange(schedules[i].from);
    AtParts(DayOf(t), ParseTime(schedules[i].from).value);
    CoveredIsInSchedule(schedules, t);
  }

  lemma InScheduleNeedsUsable(schedules: seq<Schedule>, t: Instant)
    requires InSchedule(schedules, t)
    ensures AnyUsable(schedules)
  {
    var i :| 0 <= i < |schedules| && Active(schedules[i], t);
    var k := (DayOf(t) + 3) % 7;
    assert DayName(DayOf(t)) == WEEKDAYS[k];
    assert HasDay(schedules[i].days, WEEKDAYS[k]);
    assert Usable(schedules[i]);
  }

  /** Locks taken at every instant end in schedule exactly when there is a start and every start
      is covered. */
  lemma LockEndsInSchedule(schedules: seq<Schedule>)
    ensures (forall now :: InSchedule(schedules, LockEnd(schedules, now))) <==>
            AnyUsable(schedules) && StartsCovered(schedules)
  {
    if AnyUsable(schedules) && StartsCovered(schedules) {
      forall now ensures InSchedule(schedules, LockEnd(schedules, now)) {
        LockEndMeaning(schedules, now);
        StartIsInSchedule(schedules, LockEnd(schedules, now));
      }
    }
    if forall now :: InSchedule(schedules, LockEnd(schedules, now)) {
      InScheduleNeedsUsable(schedules, LockEnd(schedules, 0));
      forall i, k | 0 <= i < |schedules| && 0 <= k < 7 && HasDay(schedules[i].days, WEEKDAYS[k])
                    && ParseTime(schedules[i].from).Some?
        ensures Covered(schedules, WEEKDAYS[k], ParseTime(schedules[i].from).value)
      {
        LockBeforeStart(schedules, i, k);
      }
    }
  }

  /** Whenever the user is locked, access is allowed at the lock's end. */
  ghost predicate LocksEndAllowed(cfg: Config, name: string) {
    forall now :: var end := LockEnd(UserOf(cfg, name).schedules, now);
      IsAllowed(name, Mutate(cfg, LockUser(name), now), end)
  }

  /** For a user without a bonus that is so exactly when there are no schedules at all, or there is
      a start and every start is covered. */
  lemma LocksEndAllowedExactly(cfg: Config, name: string)
    requires UserOf(cfg, name).bonusUntil == None
    ensures LocksEndAllowed(cfg, name) <==>
            var schedules := UserOf(cfg, name).schedules;
            schedules == [] || (AnyUsable(schedules) && StartsCovered(schedules))
  {
    var schedules := UserOf(cfg, name).schedules;
    LockEndsInSchedule(schedules);
    forall now
      ensures IsAllowed(name, Mutate(cfg, LockUser(name), now), LockEnd(schedules, now)) <==>
              schedules == [] || InSchedule(schedules, LockEnd(schedules, now))
    {
    }
  }

  /** A schedule that never opens: every lock runs to the sentinel, and access is denied there. */
  lemma NeverOpenLock(now: Instant)
    ensures StartsCovered([NEVER]) && LockEnd([NEVER], now) == FAR_FUTURE && !InSchedule([NEVER], FAR_FUTURE)
  {
    NeverOpens(FAR_FUTURE);
    assert !AnyUsable([NEVER]);
    LockEndMeaning([NEVER], now);
  }

  /** A lock taken just before a start ends at that start. */
  lemma LockBeforeStart(schedules: seq<Schedule>, i: int, k: int)
    requires 0 <= i < |schedules| && 0 <= k < 7 && HasDay(schedules[i].days, WEEKDAYS[k])
    requires ParseTime(schedules[i].from).Some?
    requires forall now :: InSchedule(schedules, LockEnd(schedules, now))
    ensures Covered(schedules, WEEKDAYS[k], ParseTime(schedules[i].from).value)
  {
    var minute := ParseTime(schedules[i].from).value;
    ParseTimeRange(schedules[i].from);
    var t := At(k + 4, minute);
    AtParts(k + 4, minute);
    assert DayName(k + 4) == WEEKDAYS[k];
    assert StartsAt(schedules[i], t);
    LockJustBefore(schedules, t);
    assert InSchedule(schedules, LockEnd(schedules, t - 1));
    CoveredIsInSchedule(schedules, t);
  }

  lemma LockJustBefore(schedules: seq<Schedule>, t: Instant)
    requires IsStart(schedules, t)
    ensures LockEnd(schedules, t - 1) == t
  {
    assert IsNextStart(schedules, t - 1, t);
    NextStartIs(schedules, t - 1, t);
  }

  /** Recognised days and From before To. */
  predicate WellFormed(s: Schedule) {
    && Usable(s)
    && ParseTime(s.to).Some? && ParseTime(s.from).value < ParseTime(s.to).value
  }

  lemma WellFormedCovers(schedules: seq<Schedule>)
    requires forall i :: 0 <= i < |schedules| ==> WellFormed(schedules[i])
    ensures StartsCovered(schedules)
  {
  }

  /** With well-formed schedules the lock's end is the first instant of access after it. */
  lemma LockEndIsFirstAllowed(cfg: Config, name: string, lock: Step)
    requires lock.op == LockUser(name)
    requires lock.cleanedAt <= LockEnd(UserOf(cfg, name).schedules, lock.requestedAt)
    requires var schedules := UserOf(cfg, name).schedules;
             schedules != [] && forall i :: 0 <= i < |schedules| ==> WellFormed(schedules[i])
    ensures var end := LockEnd(UserOf(cfg, name).schedules, lock.requestedAt);
            && lock.requestedAt < end
            && IsAllowed(name, EagerStep(cfg, lock), end)
            && forall t :: lock.requestedAt <= t < end ==> !IsAllowed(name, EagerStep(cfg, lock), t)
  {
    var schedules, now := UserOf(cfg, name).schedules, lock.requestedAt;
    var end := LockEnd(schedules, now);
    assert WellFormed(schedules[0]);
    LockEndMeaning(schedules, now);
    WellFormedCovers(schedules);
    StartIsInSchedule(schedules, end);
    LockInPlace(cfg, name, lock);
  }

  /** A window that closes before it opens: the lock ends when access is still denied. */
  lemma BackwardsWindowLock(now: Instant)
    requires DayOf(now) == 4 && MinuteOf(now) < 1080
    ensures var backwards := [Schedule(["mon"], "18:00", "14:00")];
            LockEnd(backwards, now) == At(4, 1080) && !InSchedule(backwards, At(4, 1080))
  {
    var s, t := Schedule(["mon"], "18:00", "14:00"), At(4, 1080);
    SampleTexts();
    AtParts(4, 1080);
    AtOrder(now, 1080);
    ReadsWindow(s, 4, 1080, 840, t);
    assert ToLower(s.days[0]) == "mon" by { LowerDayNames(4); }
    assert StartsAt([s][0], t);
    forall u | now < u && IsStart([s], u) ensures t <= u {
      DayMonotone(now, u);
      assert StartsAt(s, u);
    }
    NextStartIs([s], now, t);
  }

  lemma LockInPlace(cfg: Config, name: string, lock: Step)
    requires lock.op == LockUser(name)
    requires lock.cleanedAt <= LockEnd(UserOf(cfg, name).schedules, lock.requestedAt)
    ensures var after := EagerStep(cfg, lock);
            && name in after && after[name].schedules == UserOf(cfg, name).schedules
            && after[name].lockedUntil == Some(LockEnd(UserOf(cfg, name).schedules, lock.requestedAt))
  {
  }

  // ----- bonus stacking -----

  /** The largest number of minutes a 64-bit nanosecond count holds. */
  const MAX_BONUS: int := 153_722_867

  lemma Wraps(x: int)
    requires 0 <= x
    ensures Wrap64(x) <= x && (Wrap64(x) == x <==> x <= MAX_INT64)
    ensures Wrap64(x) < 0 <==> x % 0x1_0000_0000_0000_0000 >= 0x8000_0000_0000_0000
  {
    var r, q := x % 0x1_0000_0000_0000_0000, x / 0x1_0000_0000_0000_0000;
    assert x == 0x1_0000_0000_0000_0000 * q + r;
    if r < 0x8000_0000_0000_0000 {
      assert x - MIN_INT64 == 0x1_0000_0000_0000_0000 * q + (r - MIN_INT64);
    } else {
      assert x - MIN_INT64 == 0x1_0000_0000_0000_0000 * (q + 1) + (r + MIN_INT64);
    }
  }

  lemma LengthExact(minutes: int)
    requires 0 < minutes <= MAX_INT64
    ensures Length(minutes) == minutes * MINUTE <==> minutes <= MAX_BONUS
  {
  }

  /** Where the bonus granted by a request ends. */
  ghost function GrantedUntil(cfg: Config, name: string, minutes: int, now: Instant): Instant
    requires 0 < minutes <= MAX_INT64
  {
    UserOf(LazyStep(cfg, Step(AddBonus(name, minutes), now, now)), name).bonusUntil.value
  }

  /** A grant lasts its minutes from its base exactly up to the largest amount that fits, and is
      too short beyond; it ends before its base exactly if the nanoseconds, modulo 2^64, have
      the sign bit set. */
  lemma GrantExact(cfg: Config, name: string, minutes: int, now: Instant)
    requires 0 < minutes <= MAX_INT64
    ensures var base, end := BonusBase(UserOf(cfg, name), now), GrantedUntil(cfg, name, minutes, now);
            && (end == base + minutes * MINUTE <==> minutes <= MAX_BONUS)
            && (end < base + minutes * MINUTE <==> minutes > MAX_BONUS)
            && (end < base <==> minutes * MINUTE % 0x1_0000_0000_0000_0000 >= 0x8000_0000_0000_0000)
  {
    assert GrantedUntil(cfg, name, minutes, now) == BonusBase(UserOf(cfg, name), now) + Length(minutes);
    LengthExact(minutes);
    Wraps(minutes * MINUTE);
  }

  /** One minute too many, and a bonus outside the schedule has ended before it was granted; with
      twice as many it lasts less than half a minute. */
  lemma OverlongBonusIsLost(cfg: Config, name: string, now: Instant)
    requires !InForce(UserOf(cfg, name).bonusUntil, now) && !InSchedule(UserOf(cfg, name).schedules, now)
    ensures GrantedUntil(cfg, name, MAX_BONUS + 1, now) < now
    ensures now < GrantedUntil(cfg, name, 2 * MAX_BONUS + 1, now) < now + MINUTE / 2
  {
    WindowEndIsInSchedule(UserOf(cfg, name).schedules, now);
  }

  predicate Grants(s: Step, name: string) {
    s.op.AddBonus? && s.op.name == name && !Rejected(s.op)
  }

  function GrantedMinutes(steps: seq<Step>, name: string): int {
    if steps == [] then 0
    else
      var s := steps[|steps| - 1];
      GrantedMinutes(steps[..|steps| - 1], name) + if Grants(s, name) then s.op.minutes else 0
  }

  function BonusEnd(base: Instant, steps: seq<Step>, name: string): Instant {
    base + GrantedMinutes(steps, name) * 60_000_000_000
  }

  /** While the bonus runs: grants come before the current end, the clocks of clean-ups do not
      pass it, amounts are in range, and the user is neither locked nor deleted. */
  predicate KeepsBonus(s: Step, name: string, end: Instant) {
    && (Grants(s, name) ==> s.requestedAt < end && s.op.minutes <= MAX_BONUS)
    && (s.op.name == name ==> !s.op.LockUser? && !s.op.DeleteUser?)
    && s.cleanedAt <= end + if Grants(s, name) then s.op.minutes * 60_000_000_000 else 0
  }

  predicate WhileRunning(steps: seq<Step>, name: string, base: Instant) {
    forall j :: 0 <= j < |steps| ==> KeepsBonus(steps[j], name, BonusEnd(base, steps[..j], name))
  }

  /** Has a bonus up to `end` and no lock. */
  predicate HasBonus(cfg: Config, name: string, end: Instant) {
    name in cfg && cfg[name].lockedUntil == None && cfg[name].bonusUntil == Some(end)
  }

  lemma BonusStep(cfg: Config, name: string, s: Step, end: Instant)
    requires HasBonus(cfg, name, end) && KeepsBonus(s, name, end)
    ensures HasBonus(EagerStep(cfg, s), name, end + if Grants(s, name) then s.op.minutes * 60_000_000_000 else 0)
  {
    if Grants(s, name) {
      LengthExact(s.op.minutes);
    }
  }

  lemma RunningPrefix(steps: seq<Step>, name: string, base: Instant)
    requires steps != [] && WhileRunning(steps, name, base)
    ensures WhileRunning(steps[..|steps| - 1], name, base)
    ensures KeepsBonus(steps[|steps| - 1], name, BonusEnd(base, steps[..|steps| - 1], name))
  {
    var before := steps[..|steps| - 1];
    forall j | 0 <= j < |before| ensures KeepsBonus(before[j], name, BonusEnd(base, before[..j], name)) {
      assert before[..j] == steps[..j] && KeepsBonus(steps[j], name, BonusEnd(base, steps[..j], name));
    }
  }

  lemma {:induction false} BonusRuns(cfg: Config, name: string, steps: seq<Step>, end: Instant)
    requires HasBonus(cfg, name, end) && WhileRunning(steps, name, end)
    ensures HasBonus(EagerRun(cfg, steps), name, BonusEnd(end, steps, name))
  {
    if steps != [] {
      var n := |steps| - 1;
      var before := steps[..n];
      RunningPrefix(steps, name, end);
      BonusRuns(cfg, name, before, end);
      BonusStep(EagerRun(cfg, before), name, steps[n], BonusEnd(end, before, name));
    }
  }

  lemma {:induction false} GrantsAddUp(steps: seq<Step>, name: string, j: int)
    requires 0 <= j <= |steps|
    ensures GrantedMinutes(steps[..j], name) <= GrantedMinutes(steps, name)
    ensures j < |steps| && Grants(steps[j], name) ==>
              GrantedMinutes(steps[..j], name) + steps[j].op.minutes <= GrantedMinutes(steps, name)
  {
    if j < |steps| {
      var before := steps[..|steps| - 1];
      assert before[..j] == steps[..j];
      GrantsAddUp(before, name, j);
    } else {
      assert steps[..j] == steps;
    }
  }

  /** Where the first of a chain of bonuses ends. */
  function FirstBonusEnd(cfg: Config, first: Step): Instant {
    var window := WindowEnd(UserOf(cfg, first.op.name).schedules, first.requestedAt);
    var base := if window.Some? then window.value else first.requestedAt;
    if first.op.AddBonus? then base + first.op.minutes * 60_000_000_000 else base
  }

  lemma FirstBonus(cfg: Config, name: string, first: Step)
    requires Grants(first, name) && first.op.minutes <= MAX_BONUS
    requires first.cleanedAt <= FirstBonusEnd(cfg, first)
    requires !InForce(UserOf(cfg, name).bonusUntil, first.requestedAt)
    ensures HasBonus(EagerStep(cfg, first), name, FirstBonusEnd(cfg, first))
    ensures first.requestedAt + first.op.minutes * MINUTE <= FirstBonusEnd(cfg, first)
  {
    LengthExact(first.op.minutes);
    WindowEndIsInSchedule(UserOf(cfg, name).schedules, first.requestedAt);
  }

  lemma LaterBonusFits(steps: seq<Step>, name: string, base: Instant, j: int)
    requires WhileRunning(steps, name, base)
    requires 0 <= j < |steps| && Grants(steps[j], name)
    ensures steps[j].requestedAt + steps[j].op.minutes * MINUTE < BonusEnd(base, steps, name)
  {
    GrantsAddUp(steps, name, j);
    assert KeepsBonus(steps[j], name, BonusEnd(base, steps[..j], name));
  }

  lemma BonusAllows(cfg: Config, name: string, end: Instant, t: Instant)
    requires HasBonus(cfg, name, end) && t < end
    ensures IsAllowed(name, cfg, t)
  {
  }

  /** Bonuses granted one before the other's end add up: the stored end is the first one's
      base plus all the minutes. Until then access is allowed, for at least each grant's time. */
  lemma BonusesStack(cfg: Config, name: string, first: Step, steps: seq<Step>)
    requires Grants(first, name) && first.op.minutes <= MAX_BONUS
    requires first.cleanedAt <= FirstBonusEnd(cfg, first)
    requires !InForce(UserOf(cfg, name).bonusUntil, first.requestedAt)
    requires WhileRunning(steps, name, FirstBonusEnd(cfg, first))
    ensures var end := BonusEnd(FirstBonusEnd(cfg, first), steps, name);
            var after := EagerRun(EagerStep(cfg, first), steps);
            && HasBonus(after, name, end)
            && (forall t :: t < end ==> IsAllowed(name, after, t))
            && first.requestedAt + first.op.minutes * MINUTE <= end
            && forall j :: 0 <= j < |steps| && Grants(steps[j], name) ==>
                 steps[j].requestedAt + steps[j].op.minutes * MINUTE < end
  {
    var base := FirstBonusEnd(cfg, first);
    var after := EagerRun(EagerStep(cfg, first), steps);
    FirstBonus(cfg, name, first);
    BonusRuns(EagerStep(cfg, first), name, steps, base);
    forall t | t < BonusEnd(base, steps, name) ensures IsAllowed(name, after, t) {
      BonusAllows(after, name, BonusEnd(base, steps, name), t);
    }
    BonusGrows(steps, name, base);
    forall j | 0 <= j < |steps| && Grants(steps[j], name)
      ensures steps[j].requestedAt + steps[j].op.minutes * MINUTE < BonusEnd(base, steps, name)
    {
      LaterBonusFits(steps, name, base, j);
    }
  }

  lemma BonusGrows(steps: seq<Step>, name: string, base: Instant)
    ensures base <= BonusEnd(base, steps, name)
  {
    GrantsAddUp(steps, name, 0);
  }
}
