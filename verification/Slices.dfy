// Go slices of schedules over shared backing arrays, and tables of users that hold them.

module Slices {
  import opened Wrappers
  import opened Schedules
  import opened Configs

  /** A slice that starts at its array's first element: `len` elements, capacity backing.Length. */
  datatype Slice = Nil | Slice(backing: array<Schedule>, len: nat)

  predicate Fits(s: Slice) {
    s.Slice? ==> s.len <= s.backing.Length
  }

  function Backing(s: Slice): set<array<Schedule>> {
    if s.Slice? then {s.backing} else {}
  }

  function Items(s: Slice): seq<Schedule>
    requires Fits(s)
    reads Backing(s)
  {
    if s.Nil? then [] else s.backing[..s.len]
  }

  /** Writes into spare capacity when there is any; otherwise grows into a new array. */
  method Append(s: Slice, x: Schedule) returns (r: Slice)
    requires Fits(s)
    modifies Backing(s)
    ensures Fits(r) && r.Slice? && Items(r) == old(Items(s)) + [x]
    ensures s.Slice? && s.len < s.backing.Length ==> r.backing == s.backing
    ensures !(s.Slice? && s.len < s.backing.Length) ==> fresh(r.backing)
  {
    if s.Slice? && s.len < s.backing.Length {
      s.backing[s.len] := x;
      return Slice(s.backing, s.len + 1);
    }
    var items := Items(s);
    var capacity :| capacity >= |items| + 1;
    var grown := new Schedule[capacity];
    forall i | 0 <= i < |items| {
      grown[i] := items[i];
    }
    grown[|items|] := x;
    r := Slice(grown, |items| + 1);
  }

  /** append(s[:index], s[index+1:]...): shifts the tail down inside the same array. */
  method Remove(s: Slice, index: nat) returns (r: Slice)
    requires Fits(s) && s.Slice? && index < s.len
    modifies Backing(s)
    ensures Fits(r) && r.Slice? && r.backing == s.backing
    ensures Items(r) == Without(old(Items(s)), index)
  {
    var a := s.backing;
    ghost var before := Items(s);
    for k := index to s.len - 1
      invariant a[..index] == before[..index]
      invariant forall i :: index <= i < k ==> a[i] == before[i + 1]
      invariant forall i :: k < i < s.len ==> a[i] == before[i]
    {
      a[k] := a[k + 1];
    }
    r := Slice(a, s.len - 1);
    assert a[index..s.len - 1] == before[index + 1..];
    assert Items(r) == a[..index] + a[index..s.len - 1];
  }

  /** make and copy: a new array of exactly the list's length. */
  method FromItems(items: seq<Schedule>) returns (r: Slice)
    ensures Fits(r) && r.Slice? && fresh(r.backing) && Items(r) == items
  {
    var copy := new Schedule[|items|](i requires 0 <= i < |items| => items[i]);
    r := Slice(copy, |items|);
  }

  // ----- tables of users -----

  datatype UserEntry = UserEntry(schedules: Slice, lockedUntil: Option<Instant>, bonusUntil: Option<Instant>)

  type Table = map<string, UserEntry>

  function Arrays(t: Table): set<array<Schedule>> {
    set name | name in t && t[name].schedules.Slice? :: t[name].schedules.backing
  }

  /** Every slice fits, and no two users share a backing array. */
  ghost predicate Sound(t: Table) {
    && (forall name :: name in t ==> Fits(t[name].schedules))
    && forall m, n :: m in t && n in t && m != n && t[m].schedules.Slice? && t[n].schedules.Slice?
         ==> t[m].schedules.backing != t[n].schedules.backing
  }

  function UserAt(e: UserEntry): User
    requires Fits(e.schedules)
    reads Backing(e.schedules)
  {
    User(Items(e.schedules), e.lockedUntil, e.bonusUntil)
  }

  /** The configuration a table stands for. */
  function Contents(t: Table): Config
    requires Sound(t)
    reads Arrays(t)
  {
    map name | name in t :: UserAt(t[name])
  }

  lemma ArraysAfterPut(t: Table, name: string, e: UserEntry)
    ensures Arrays(t[name := e]) <= Arrays(t) + Backing(e.schedules)
    ensures name in t && Backing(e.schedules) == Backing(t[name].schedules) ==> Arrays(t[name := e]) == Arrays(t)
    ensures name !in t && e.schedules.Nil? ==> Arrays(t[name := e]) == Arrays(t)
  {
    var after := t[name := e];
    forall a | a in Arrays(after) ensures a in Arrays(t) + Backing(e.schedules) {
      var m :| m in after && after[m].schedules.Slice? && after[m].schedules.backing == a;
      assert m != name ==> m in t && t[m] == after[m];
    }
    forall a | a in Arrays(t) && (name !in t || Backing(e.schedules) == Backing(t[name].schedules))
      ensures a in Arrays(after)
    {
      var m :| m in t && t[m].schedules.Slice? && t[m].schedules.backing == a;
      if m == name {
        assert a in Backing(e.schedules);
        assert name in after;
      } else {
        assert m in after && after[m] == t[m];
      }
    }
  }

  /** Replacing one entry, whose array is its own, replaces one user: `before` is what the
      table stood for, and the other users still have what they had. */
  lemma ReplacesOne(t: Table, before: Config, name: string, e: UserEntry)
    requires Sound(t) && Fits(e.schedules)
    requires t.Keys == before.Keys
    requires forall m :: m in t && m != name ==>
               UserAt(t[m]) == before[m] && Backing(t[m].schedules) !! Backing(e.schedules)
    ensures Sound(t[name := e])
    ensures Contents(t[name := e]) == before[name := UserAt(e)]
  {
  }

  /** A table of the given contents, every schedule list in an array of its own. */
  method Allocate(cfg: Config) returns (t: Table)
    ensures Sound(t) && Contents(t) == cfg && fresh(Arrays(t))
  {
    t := map[];
    var todo := cfg.Keys;
    while todo != {}
      invariant todo <= cfg.Keys && t.Keys == cfg.Keys - todo
      invariant Sound(t) && fresh(Arrays(t))
      invariant forall m :: m in t ==> UserAt(t[m]) == cfg[m]
    {
      var name := Pick(todo);
      var user := cfg[name];
      var schedules := FromItems(user.schedules);
      var entry := UserEntry(schedules, user.lockedUntil, user.bonusUntil);
      ArraysAfterPut(t, name, entry);
      t := t[name := entry];
      todo := todo - {name};
    }
  }
}
