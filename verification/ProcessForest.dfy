// The process forest: why the recursions over it end and meet every process below a session
// root exactly once, for any snapshot of parent links (internal/activity/proc.go).

module ProcessForest {
  import opened Wrappers
  import opened Text

  datatype Proc = Proc(ppid: int, exe: string, comm: string, cmdline: string)

  /** The processes of one user, by pid. Parent links may lead anywhere, also in circles. */
  type Snapshot = map<int, Proc>

  // ----- climbing parent links -----

  /** From `q`, `k` parent links inside the snapshot lead to `p`. */
  ghost predicate Climbs(procs: Snapshot, q: int, p: int, k: nat)
    decreases k
  {
    q in procs && if k == 0 then q == p else Climbs(procs, procs[q].ppid, p, k - 1)
  }

  ghost predicate Under(procs: Snapshot, q: int, p: int) {
    exists k: nat :: Climbs(procs, q, p, k)
  }

  /** `n` parent links above `p` there is a session root. */
  ghost predicate Level(procs: Snapshot, p: int, n: nat)
    decreases n
  {
    p in procs && if n == 0 then procs[p].ppid !in procs else Level(procs, procs[p].ppid, n - 1)
  }

  lemma {:induction false} LevelUnique(procs: Snapshot, p: int, m: nat, n: nat)
    requires Level(procs, p, m) && Level(procs, p, n)
    ensures m == n
    decreases m
  {
    if m > 0 && n > 0 {
      LevelUnique(procs, procs[p].ppid, m - 1, n - 1);
    }
  }

  lemma {:induction false} ClimbsUnique(procs: Snapshot, q: int, a: int, b: int, k: nat)
    requires Climbs(procs, q, a, k) && Climbs(procs, q, b, k)
    ensures a == b
    decreases k
  {
    if k > 0 {
      ClimbsUnique(procs, procs[q].ppid, a, b, k - 1);
    }
  }

  lemma {:induction false} ClimbsFurther(procs: Snapshot, q: int, p: int, r: int, j: nat, k: nat)
    requires Climbs(procs, q, p, j) && Climbs(procs, p, r, k)
    ensures Climbs(procs, q, r, j + k)
    decreases j
  {
    if j > 0 {
      ClimbsFurther(procs, procs[q].ppid, p, r, j - 1, k);
    }
  }

  /** Climbing k links lowers the level by k, and the other way round. */
  lemma {:induction false} ClimbLowersLevel(procs: Snapshot, q: int, p: int, k: nat)
    requires Climbs(procs, q, p, k)
    ensures forall n: nat :: Level(procs, p, n) ==> Level(procs, q, n + k)
    ensures forall m: nat :: Level(procs, q, m) ==> k <= m && Level(procs, p, m - k)
    decreases k
  {
    if k > 0 {
      ClimbLowersLevel(procs, procs[q].ppid, p, k - 1);
      forall m: nat | Level(procs, q, m) ensures k <= m && Level(procs, p, m - k) {
        assert procs[q].ppid in procs;
        assert Level(procs, procs[q].ppid, m - 1);
      }
    }
  }

  /** The last link of a climb comes from a child. */
  lemma {:induction false} LastLink(procs: Snapshot, q: int, p: int, k: nat) returns (c: int)
    requires Climbs(procs, q, p, k) && k > 0
    ensures c in procs && procs[c].ppid == p && Climbs(procs, q, c, k - 1)
    decreases k
  {
    if k == 1 {
      c := q;
    } else {
      c := LastLink(procs, procs[q].ppid, p, k - 1);
    }
  }

  // ----- levels are bounded -----

  /** A process and its ancestors. */
  ghost function Chain(procs: Snapshot, p: int, n: nat): set<int>
    requires Level(procs, p, n)
    decreases n
  {
    {p} + if n == 0 then {} else Chain(procs, procs[p].ppid, n - 1)
  }

  lemma {:induction false} ChainMember(procs: Snapshot, p: int, n: nat, q: int) returns (j: nat)
    requires Level(procs, p, n) && q in Chain(procs, p, n)
    ensures j <= n && Level(procs, q, j)
    decreases n
  {
    j := n;
    if q != p {
      j := ChainMember(procs, procs[p].ppid, n - 1, q);
    }
  }

  lemma {:induction false} ChainSize(procs: Snapshot, p: int, n: nat)
    requires Level(procs, p, n)
    ensures |Chain(procs, p, n)| == n + 1 && Chain(procs, p, n) <= procs.Keys
    decreases n
  {
    if n > 0 {
      ChainSize(procs, procs[p].ppid, n - 1);
      if p in Chain(procs, procs[p].ppid, n - 1) {
        var j := ChainMember(procs, procs[p].ppid, n - 1, p);
        LevelUnique(procs, p, j, n);
      }
    }
  }

  /** So recursion one level deeper must end. */
  lemma LevelBound(procs: Snapshot, p: int, n: nat)
    requires Level(procs, p, n)
    ensures n < |procs|
  {
    ChainSize(procs, p, n);
    SubsetSize(Chain(procs, p, n), procs.Keys);
  }

  lemma SubsetSize(a: set<int>, b: set<int>)
    requires a <= b
    ensures |a| <= |b|
  {
    assert b == a + (b - a);
  }

  // ----- child lists -----

  ghost predicate Distinct(s: seq<int>) {
    forall i, j :: 0 <= i < j < |s| ==> s[i] != s[j]
  }

  /** Each list holds the children of its process, once each, in any order. */
  ghost predicate Linked(procs: Snapshot, children: map<int, seq<int>>) {
    && children.Keys == procs.Keys
    && forall p :: p in procs ==>
         && Distinct(children[p])
         && forall c :: c in children[p] <==> c in procs && procs[c].ppid == p
  }

  /** The second pass of the scan: appends every process to its parent's list. */
  method BuildProcessTree(procs: Snapshot) returns (children: map<int, seq<int>>)
    ensures Linked(procs, children)
  {
    children := map p | p in procs :: [];
    var todo := procs.Keys;
    while todo != {}
      invariant todo <= procs.Keys && children.Keys == procs.Keys
      invariant forall p :: p in procs ==> Distinct(children[p])
      invariant forall p, c :: p in procs ==> (c in children[p] <==> c in procs && c !in todo && procs[c].ppid == p)
    {
      var c := Pick(todo);
      var parent := procs[c].ppid;
      if parent in procs {
        OneMoreChild(children[parent], c);
        children := children[parent := children[parent] + [c]];
      }
      todo := todo - {c};
    }
  }

  lemma OneMoreChild(list: seq<int>, c: int)
    requires Distinct(list) && c !in list
    ensures Distinct(list + [c])
    ensures forall x :: x in list + [c] <==> x in list || x == c
  {
  }

  // ----- subtrees -----

  ghost function Subtree(procs: Snapshot, p: int): set<int> {
    set q | q in procs && Under(procs, q, p)
  }

  /** What hangs below the first `i` of a list of processes. */
  ghost function BelowFirst(procs: Snapshot, list: seq<int>, i: nat): set<int>
    requires i <= |list|
  {
    set q | q in procs && exists j :: 0 <= j < i && Under(procs, q, list[j])
  }

  lemma SiblingsApart(procs: Snapshot, a: int, b: int, n: nat, q: int)
    requires Level(procs, a, n) && Level(procs, b, n)
    requires Under(procs, q, a) && Under(procs, q, b)
    ensures a == b
  {
    var j: nat :| Climbs(procs, q, a, j);
    var k: nat :| Climbs(procs, q, b, k);
    ClimbLowersLevel(procs, q, a, j);
    ClimbLowersLevel(procs, q, b, k);
    LevelUnique(procs, q, n + j, n + k);
    ClimbsUnique(procs, q, a, b, j);
  }

  lemma ChildLevel(procs: Snapshot, children: map<int, seq<int>>, p: int, n: nat, c: int)
    requires Linked(procs, children) && Level(procs, p, n) && c in children[p]
    ensures Level(procs, c, n + 1) && n + 1 < |procs|
  {
    LevelBound(procs, c, n + 1);
  }

  /** The subtrees of siblings do not meet. */
  lemma BelowFirstGrows(procs: Snapshot, children: map<int, seq<int>>, p: int, n: nat, i: nat)
    requires Linked(procs, children) && Level(procs, p, n) && i < |children[p]|
    ensures BelowFirst(procs, children[p], i + 1) == BelowFirst(procs, children[p], i) + Subtree(procs, children[p][i])
    ensures BelowFirst(procs, children[p], i) !! Subtree(procs, children[p][i])
  {
    var list := children[p];
    forall q | q in BelowFirst(procs, list, i) ensures q !in Subtree(procs, list[i]) {
      var j :| 0 <= j < i && Under(procs, q, list[j]);
      if Under(procs, q, list[i]) {
        ChildLevel(procs, children, p, n, list[i]);
        ChildLevel(procs, children, p, n, list[j]);
        SiblingsApart(procs, list[i], list[j], n + 1, q);
      }
    }
  }

  /** A subtree is its root and the subtrees of the root's children. */
  lemma SubtreeSplits(procs: Snapshot, children: map<int, seq<int>>, p: int, n: nat)
    requires Linked(procs, children) && Level(procs, p, n)
    ensures Subtree(procs, p) == {p} + BelowFirst(procs, children[p], |children[p]|)
    ensures p !in BelowFirst(procs, children[p], |children[p]|)
  {
    var list := children[p];
    var below := BelowFirst(procs, list, |list|);
    assert Climbs(procs, p, p, 0);
    forall q | q in Subtree(procs, p) ensures q in {p} + below {
      var k: nat :| Climbs(procs, q, p, k);
      if k > 0 {
        var c := LastLink(procs, q, p, k);
        assert Under(procs, q, c) && c in list;
      }
    }
    forall q | q in below ensures q in Subtree(procs, p) && q != p {
      var j :| 0 <= j < |list| && Under(procs, q, list[j]);
      var k: nat :| Climbs(procs, q, list[j], k);
      assert list[j] in list;
      assert Climbs(procs, list[j], p, 1);
      ClimbsFurther(procs, q, list[j], p, k, 1);
      ClimbLowersLevel(procs, q, p, k + 1);
      if Level(procs, q, n) {
        LevelUnique(procs, q, n, n + k + 1);
      }
    }
  }

  // ----- circles -----

  ghost predicate OnCircle(procs: Snapshot, p: int) {
    exists k: nat :: k > 0 && Climbs(procs, p, p, k)
  }

  /** Climbing from the process ends up going round in circles. */
  ghost predicate HangsOnCircle(procs: Snapshot, q: int) {
    exists p :: Under(procs, q, p) && OnCircle(procs, p)
  }

  lemma {:induction false} CircleHasNoLevel(procs: Snapshot, p: int, k: nat, m: nat)
    requires k > 0 && Climbs(procs, p, p, k)
    ensures !Level(procs, p, m)
    decreases m
  {
    ClimbLowersLevel(procs, p, p, k);
    if k <= m {
      CircleHasNoLevel(procs, p, k, m - k);
    }
  }

  lemma HangingHasNoLevel(procs: Snapshot, q: int, n: nat)
    requires HangsOnCircle(procs, q)
    ensures !Level(procs, q, n)
  {
    var p :| Under(procs, q, p) && OnCircle(procs, p);
    var j: nat :| Climbs(procs, q, p, j);
    var k: nat :| k > 0 && Climbs(procs, p, p, k);
    ClimbLowersLevel(procs, q, p, j);
    if j <= n {
      CircleHasNoLevel(procs, p, k, n - j);
    }
  }

  /** Climbs on from `p`, having passed the processes in `passed`. */
  lemma ClimbToRootOrCircle(procs: Snapshot, q: int, p: int, k: nat, passed: set<int>)
    requires Climbs(procs, q, p, k) && p in procs && passed <= procs.Keys
    requires forall s :: s in passed ==> Passed(procs, s, p)
    ensures Rooted(procs, q) || HangsOnCircle(procs, q)
    decreases |procs| - |passed|
  {
    assert Under(procs, q, p);
    if p in passed {
      var j: nat :| j > 0 && Climbs(procs, p, p, j);
      assert Under(procs, q, p) && OnCircle(procs, p);
      assert HangsOnCircle(procs, q);
    } else if procs[p].ppid !in procs {
      ClimbLowersLevel(procs, q, p, k);
      assert Level(procs, p, 0) && Level(procs, q, 0 + k) && Level(procs, q, k);
      assert Rooted(procs, q);
    } else {
      var next := procs[p].ppid;
      assert Climbs(procs, p, next, 1);
      ClimbsFurther(procs, q, p, next, k, 1);
      forall s | s in passed + {p} ensures Passed(procs, s, next) {
        if s != p {
          var j: nat :| j > 0 && Climbs(procs, s, p, j);
          ClimbsFurther(procs, s, p, next, j, 1);
        }
      }
      SubsetSize(passed + {p}, procs.Keys);
      ClimbToRootOrCircle(procs, q, next, k + 1, passed + {p});
    }
  }

  ghost predicate Rooted(procs: Snapshot, q: int) {
    exists n: nat :: Level(procs, q, n)
  }

  ghost predicate Passed(procs: Snapshot, s: int, p: int) {
    exists j: nat :: j > 0 && Climbs(procs, s, p, j)
  }

  /** A scan visits exactly the processes that have a parent in the snapshot and do not hang on
      a circle of parent links. */
  lemma VisitedUnlessCircular(procs: Snapshot, q: int)
    requires q in procs
    ensures q in BelowRoots(procs) <==> procs[q].ppid in procs && !HangsOnCircle(procs, q)
  {
    assert Climbs(procs, q, q, 0);
    ClimbToRootOrCircle(procs, q, q, 0, {});
    if n: nat :| Level(procs, q, n) {
      LevelParent(procs, q, n);
      if HangsOnCircle(procs, q) {
        HangingHasNoLevel(procs, q, n);
      }
    }
    if q in BelowRoots(procs) {
      var m: nat :| m > 0 && Level(procs, q, m);
      LevelParent(procs, q, m);
    }
  }

  lemma LevelParent(procs: Snapshot, q: int, n: nat)
    requires Level(procs, q, n)
    ensures n > 0 <==> procs[q].ppid in procs
  {
  }

  // ----- labels -----

  predicate WinePreloader(exe: string) {
    exe == "wine64-preloader" || exe == "wine-preloader"
  }

  function Label(proc: Proc): string {
    if WinePreloader(proc.exe) && proc.comm != "" then proc.comm else proc.exe
  }

  /** The value of the first AppId= word. */
  function ReaperAppID(words: seq<string>): string {
    if words == [] then ""
    else if HasPrefix(words[0], "AppId=") then TrimPrefix(words[0], "AppId=")
    else ReaperAppID(words[1..])
  }

  /** What collecting a process adds: its label, and for a reaper the id it names. */
  function Labels(proc: Proc): set<string> {
    var id := ReaperAppID(Fields(proc.cmdline));
    {Label(proc)} + if proc.exe == "reaper" && id != "" then {"appid:" + id} else {}
  }

  function AllLabels(procs: Snapshot, pids: set<int>): set<string> {
    set p, name | p in pids && p in procs && name in Labels(procs[p]) :: name
  }

  /** What a process is noted as: under Wine by its command name, if it has one, and otherwise by
      its executable; a reaper also by the first word of its command line that names an id. */
  ghost predicate NotedAs(proc: Proc, x: string) {
    var wine := proc.exe in ["wine64-preloader", "wine-preloader"] && proc.comm != "";
    || (wine && x == proc.comm)
    || (!wine && x == proc.exe)
    || (proc.exe == "reaper" && exists id :: id != "" && x == "appid:" + id && NamesID(Fields(proc.cmdline), id))
  }

  /** The first word that starts with "AppId=" goes on with the id. */
  ghost predicate NamesID(words: seq<string>, id: string) {
    exists i :: FirstID(words, id, i)
  }

  ghost predicate FirstID(words: seq<string>, id: string, i: int) {
    && 0 <= i < |words| && words[i] == "AppId=" + id
    && forall j :: 0 <= j < i ==> !HasPrefix(words[j], "AppId=")
  }

  lemma {:induction false} ReaperExact(words: seq<string>, id: string)
    requires id != ""
    ensures ReaperAppID(words) == id <==> NamesID(words, id)
  {
    if words != [] {
      if HasPrefix(words[0], "AppId=") {
        assert words[0] == "AppId=" + TrimPrefix(words[0], "AppId=");
        assert ReaperAppID(words) == id ==> FirstID(words, id, 0);
        forall i | FirstID(words, id, i) ensures i == 0 {
        }
      } else {
        ReaperExact(words[1..], id);
        if i :| FirstID(words[1..], id, i) {
          assert forall j :: 0 < j < i + 1 ==> words[j] == words[1..][j - 1];
          assert FirstID(words, id, i + 1);
        }
        if i :| FirstID(words, id, i) {
          assert HasPrefix("AppId=" + id, "AppId=");
          assert forall j :: 0 <= j < i - 1 ==> words[1..][j] == words[j + 1];
          assert FirstID(words[1..], id, i - 1);
        }
      }
    }
  }

  lemma LabelsExact(proc: Proc, x: string)
    ensures x in Labels(proc) <==> NotedAs(proc, x)
  {
    var words := Fields(proc.cmdline);
    var id := ReaperAppID(words);
    if id != "" {
      ReaperExact(words, id);
    }
    if i :| i != "" && x == "appid:" + i && NamesID(words, i) {
      ReaperExact(words, i);
    }
  }

  /** The scan's result, process by process. */
  lemma NotedExact(procs: Snapshot, pids: set<int>, x: string)
    requires forall p :: p in pids ==> p in procs
    ensures x in AllLabels(procs, pids) <==> exists p :: p in pids && NotedAs(procs[p], x)
  {
    forall p | p in pids ensures x in Labels(procs[p]) <==> NotedAs(procs[p], x) {
      LabelsExact(procs[p], x);
    }
  }

  /** A reaper with the id as a word of its command line, and none before it. */
  lemma ReaperIsNoted(proc: Proc, a: string, id: string, b: string)
    requires proc.exe == "reaper" && proc.cmdline == a + " " + ("AppId=" + id + " " + b)
    requires id != "" && (forall c :: c in id ==> !IsSpace(c))
    requires forall word :: word in Fields(a) ==> !HasPrefix(word, "AppId=")
    ensures NotedAs(proc, "appid:" + id)
  {
    var word := "AppId=" + id;
    forall c | c in word ensures !IsSpace(c) {
      assert c in "AppId=" || c in id;
    }
    FieldsAround(a, word, b);
    IDAfter(Fields(a), Fields(b), id);
  }

  lemma IDAfter(before: seq<string>, after: seq<string>, id: string)
    requires forall word :: word in before ==> !HasPrefix(word, "AppId=")
    ensures NamesID(before + (["AppId=" + id] + after), id)
  {
    var words := before + (["AppId=" + id] + after);
    assert words[|before|] == "AppId=" + id;
    assert forall j :: 0 <= j < |before| ==> words[j] == before[j];
    assert FirstID(words, id, |before|);
  }

  // ----- the name of a top-level process -----

  /** A process of the subtree with an id, and with none on the way up from it. */
  ghost predicate Topmost(procs: Snapshot, appID: int -> string, p: int, q: int) {
    && q in Subtree(procs, p) && appID(q) != ""
    && forall r :: r in Subtree(procs, p) && Under(procs, q, r) && r != q ==> appID(r) == ""
  }

  /** An application id that no id further up hides, or nothing if the subtree has none. */
  ghost predicate NamesSubtree(procs: Snapshot, appID: int -> string, p: int, id: string) {
    && (id == "" <==> forall q :: q in Subtree(procs, p) ==> appID(q) == "")
    && (id != "" ==> exists q :: Topmost(procs, appID, p, q) && appID(q) == id)
  }

  lemma OwnIDIsTopmost(procs: Snapshot, appID: int -> string, p: int, n: nat)
    requires Level(procs, p, n) && appID(p) != ""
    ensures Topmost(procs, appID, p, p)
  {
    assert Climbs(procs, p, p, 0);
    forall r | r in Subtree(procs, p) && Under(procs, p, r) ensures r == p {
      var j: nat :| Climbs(procs, p, r, j);
      var k: nat :| Climbs(procs, r, p, k);
      ClimbsFurther(procs, p, r, p, j, k);
      if j + k > 0 {
        CircleHasNoLevel(procs, p, j + k, n);
      }
    }
  }

  /** What is topmost below a child is so below a process without an id. */
  lemma TopmostBelowChild(procs: Snapshot, children: map<int, seq<int>>, appID: int -> string, p: int, n: nat,
                          i: nat, q: int)
    requires Linked(procs, children) && Level(procs, p, n) && i < |children[p]|
    requires appID(p) == "" && Topmost(procs, appID, children[p][i], q)
    ensures Topmost(procs, appID, p, q)
  {
    var list := children[p];
    InSubtree(procs, p, list, i);
    SubtreeSplits(procs, children, p, n);
    forall r | r in Subtree(procs, p) && Under(procs, q, r) && r != q ensures appID(r) == "" {
      if r != p {
        var j :| 0 <= j < |list| && Under(procs, r, list[j]);
        UnderFurther(procs, q, r, list[j]);
        ChildLevel(procs, children, p, n, list[i]);
        ChildLevel(procs, children, p, n, list[j]);
        SiblingsApart(procs, list[i], list[j], n + 1, q);
      }
    }
  }

  lemma UnderFurther(procs: Snapshot, q: int, r: int, p: int)
    requires Under(procs, q, r) && Under(procs, r, p)
    ensures Under(procs, q, p)
  {
    var j: nat :| Climbs(procs, q, r, j);
    var k: nat :| Climbs(procs, r, p, k);
    ClimbsFurther(procs, q, r, p, j, k);
  }

  method FindAppIDInSubtree(procs: Snapshot, children: map<int, seq<int>>, appID: int -> string, p: int, ghost n: nat)
    returns (id: string)
    requires Linked(procs, children) && Level(procs, p, n)
    ensures NamesSubtree(procs, appID, p, id)
    decreases |procs| - n
  {
    assert Climbs(procs, p, p, 0);
    id := appID(p);
    if id != "" {
      OwnIDIsTopmost(procs, appID, p, n);
      return;
    }
    SubtreeSplits(procs, children, p, n);
    var list := children[p];
    for i := 0 to |list|
      invariant forall q :: q in BelowFirst(procs, list, i) ==> appID(q) == ""
    {
      ChildLevel(procs, children, p, n, list[i]);
      BelowFirstGrows(procs, children, p, n, i);
      id := FindAppIDInSubtree(procs, children, appID, list[i], n + 1);
      if id != "" {
        ghost var q :| Topmost(procs, appID, list[i], q) && appID(q) == id;
        TopmostBelowChild(procs, children, appID, p, n, i, q);
        return;
      }
    }
    id := "";
  }

  lemma InSubtree(procs: Snapshot, p: int, list: seq<int>, i: nat)
    requires p in procs && i < |list|
    requires list[i] in procs && procs[list[i]].ppid == p
    ensures Subtree(procs, list[i]) <= Subtree(procs, p)
  {
    forall q | q in Subtree(procs, list[i]) ensures q in Subtree(procs, p) {
      var k: nat :| Climbs(procs, q, list[i], k);
      assert Climbs(procs, list[i], p, 1);
      ClimbsFurther(procs, q, list[i], p, k, 1);
    }
  }

  /** The name of a top-level process: an id from its subtree, or else its executable. */
  ghost predicate ResolvesTo(procs: Snapshot, appID: int -> string, p: int, name: string) {
    p in procs && exists id :: NamesSubtree(procs, appID, p, id) && name == if id != "" then id else procs[p].exe
  }

  method ResolveAppName(procs: Snapshot, children: map<int, seq<int>>, appID: int -> string, p: int, ghost n: nat)
    returns (name: string)
    requires Linked(procs, children) && Level(procs, p, n)
    ensures ResolvesTo(procs, appID, p, name)
  {
    var id := FindAppIDInSubtree(procs, children, appID, p, n);
    name := if id != "" then id else procs[p].exe;
  }

  // ----- the scan -----

  /** Everything that hangs below a session root. */
  ghost function BelowRoots(procs: Snapshot): set<int> {
    set q | q in procs && exists n: nat :: n > 0 && Level(procs, q, n)
  }

  /** The children of session roots. */
  ghost function TopLevelApps(procs: Snapshot): set<int> {
    set c | c in procs && Level(procs, c, 1)
  }

  /** What hangs below those of the given processes that are session roots. */
  ghost function UnderRoots(procs: Snapshot, done: set<int>): set<int> {
    set q | q in procs && exists r :: r in done && Level(procs, r, 0) && Under(procs, q, r) && q != r
  }

  /** The children of those of the given processes that are session roots. */
  ghost function TopLevel(procs: Snapshot, done: set<int>): set<int> {
    set c | c in procs && procs[c].ppid in done && Level(procs, procs[c].ppid, 0)
  }

  lemma UnderRootsGrow(procs: Snapshot, done: set<int>, r: int)
    requires r in procs && r !in done
    ensures Level(procs, r, 0) ==>
              && UnderRoots(procs, done + {r}) == UnderRoots(procs, done) + (Subtree(procs, r) - {r})
              && UnderRoots(procs, done) !! Subtree(procs, r) - {r}
    ensures !Level(procs, r, 0) ==>
              UnderRoots(procs, done + {r}) == UnderRoots(procs, done) &&
              TopLevel(procs, done + {r}) == TopLevel(procs, done)
  {
    if Level(procs, r, 0) {
      forall q | q in UnderRoots(procs, done) ensures q !in Subtree(procs, r) {
        var other :| other in done && Level(procs, other, 0) && Under(procs, q, other) && q != other;
        if Under(procs, q, r) {
          SiblingsApart(procs, other, r, 0, q);
        }
      }
    }
  }

  lemma {:induction false} RootAbove(procs: Snapshot, q: int, n: nat) returns (r: int)
    requires Level(procs, q, n)
    ensures Climbs(procs, q, r, n) && Level(procs, r, 0)
    decreases n
  {
    r := q;
    if n > 0 {
      r := RootAbove(procs, procs[q].ppid, n - 1);
    }
  }

  lemma AllUnderRoots(procs: Snapshot)
    ensures UnderRoots(procs, procs.Keys) == BelowRoots(procs)
    ensures TopLevel(procs, procs.Keys) == TopLevelApps(procs)
  {
    forall q | q in UnderRoots(procs, procs.Keys) ensures q in BelowRoots(procs) {
      var r :| r in procs && Level(procs, r, 0) && Under(procs, q, r) && q != r;
      var k: nat :| Climbs(procs, q, r, k);
      ClimbLowersLevel(procs, q, r, k);
      assert Level(procs, q, k);
    }
    forall q | q in BelowRoots(procs) ensures q in UnderRoots(procs, procs.Keys) {
      var n: nat :| n > 0 && Level(procs, q, n);
      var r := RootAbove(procs, q, n);
      assert Under(procs, q, r);
    }
  }

  // ----- progress of a scan -----

  /** Since the given moment each process of `part` was visited once and its labels were noted,
      and so were some names. */
  ghost predicate Progress(procs: Snapshot, visits0: multiset<int>, seen0: set<string>,
                           visits: multiset<int>, seen: set<string>, part: set<int>, names: set<string>) {
    visits == visits0 + multiset(part) && seen == seen0 + AllLabels(procs, part) + names
  }

  lemma ProgressAdds(procs: Snapshot, visits0: multiset<int>, seen0: set<string>,
                     visits1: multiset<int>, seen1: set<string>, part: set<int>, names: set<string>,
                     visits2: multiset<int>, seen2: set<string>, next: set<int>, more: set<string>)
    requires Progress(procs, visits0, seen0, visits1, seen1, part, names)
    requires Progress(procs, visits1, seen1, visits2, seen2, next, more)
    requires part !! next
    ensures Progress(procs, visits0, seen0, visits2, seen2, part + next, names + more)
  {
  }

  /** One name for each process of a set. */
  ghost predicate NamesOf(procs: Snapshot, appID: int -> string, pids: set<int>, names: map<int, string>) {
    names.Keys == pids && forall c :: c in names ==> ResolvesTo(procs, appID, c, names[c])
  }

  lemma MergeNames(procs: Snapshot, appID: int -> string, a: set<int>, m: map<int, string>, b: set<int>,
                   n: map<int, string>)
    requires NamesOf(procs, appID, a, m) && NamesOf(procs, appID, b, n) && a !! b
    ensures NamesOf(procs, appID, a + b, m + n) && (m + n).Values == m.Values + n.Values
  {
  }

  lemma SingleName(procs: Snapshot, appID: int -> string, c: int, name: string)
    requires ResolvesTo(procs, appID, c, name)
    ensures NamesOf(procs, appID, {c}, map[c := name]) && map[c := name].Values == {name}
  {
  }

  /** The children of a process, and the first of them. */
  ghost function FirstChildren(children: map<int, seq<int>>, p: int, i: nat): set<int>
    requires p in children && i <= |children[p]|
  {
    set c | c in children[p][..i]
  }

  lemma FirstChildrenGrow(children: map<int, seq<int>>, p: int, i: nat)
    requires p in children && i < |children[p]| && Distinct(children[p])
    ensures FirstChildren(children, p, i + 1) == FirstChildren(children, p, i) + {children[p][i]}
    ensures children[p][i] !in FirstChildren(children, p, i)
  {
  }

  /** One scan: the names seen, and how often each process was visited. */
  class Scan {
    const procs: Snapshot
    const children: map<int, seq<int>>
    var seen: set<string>
    ghost var visits: multiset<int>

    constructor (procs: Snapshot, children: map<int, seq<int>>)
      ensures this.procs == procs && this.children == children && seen == {} && visits == multiset{}
    {
      this.procs, this.children := procs, children;
      seen, visits := {}, multiset{};
    }

    method AddLabels(proc: Proc)
      modifies this`seen
      ensures seen == old(seen) + Labels(proc)
    {
      seen := seen + {Label(proc)};
      if proc.exe == "reaper" {
        var id := ReaperAppID(Fields(proc.cmdline));
        if id != "" {
          seen := seen + {"appid:" + id};
        }
      }
    }

    /** A process and the subtrees of its first `i` children. */
    ghost function Part(p: int, i: nat): set<int>
      requires p in procs && p in children && i <= |children[p]|
    {
      {p} + BelowFirst(procs, children[p], i)
    }

    lemma FirstPart(p: int, n: nat)
      requires Linked(procs, children) && Level(procs, p, n)
      ensures Part(p, 0) == {p} && AllLabels(procs, {p}) == Labels(procs[p])
      ensures Part(p, |children[p]|) == Subtree(procs, p)
    {
      SubtreeSplits(procs, children, p, n);
    }

    /** The `i`-th child's subtree is new. */
    lemma NextPart(p: int, n: nat, i: nat)
      requires Linked(procs, children) && Level(procs, p, n) && i < |children[p]|
      ensures Level(procs, children[p][i], n + 1) && n + 1 < |procs|
      ensures Part(p, i + 1) == Part(p, i) + Subtree(procs, children[p][i])
      ensures Part(p, i) !! Subtree(procs, children[p][i])
    {
      ChildLevel(procs, children, p, n, children[p][i]);
      BelowFirstGrows(procs, children, p, n, i);
      SubtreeSplits(procs, children, p, n);
      assert Subtree(procs, children[p][i]) <= BelowFirst(procs, children[p], |children[p]|);
    }

    /** Visits a process and recurses into its children; nothing marks what was visited. */
    method CollectSubtreeExes(p: int, ghost n: nat)
      requires Linked(procs, children) && Level(procs, p, n)
      modifies this
      ensures Progress(procs, old(visits), old(seen), visits, seen, Subtree(procs, p), {})
      decreases |procs| - n, 1
    {
      ghost var visits0, seen0 := visits, seen;
      visits := visits + multiset{p};
      AddLabels(procs[p]);
      FirstPart(p, n);
      for i := 0 to |children[p]|
        invariant Progress(procs, visits0, seen0, visits, seen, Part(p, i), {})
      {
        CollectChild(p, n, i, visits0, seen0);
      }
    }

    method CollectChild(p: int, ghost n: nat, i: nat, ghost visits0: multiset<int>, ghost seen0: set<string>)
      requires Linked(procs, children) && Level(procs, p, n) && i < |children[p]|
      requires Progress(procs, visits0, seen0, visits, seen, Part(p, i), {})
      modifies this
      ensures Progress(procs, visits0, seen0, visits, seen, Part(p, i + 1), {})
      decreases |procs| - n, 0
    {
      ChildLevel(procs, children, p, n, children[p][i]);
      ghost var visits1, seen1 := visits, seen;
      CollectSubtreeExes(children[p][i], n + 1);
      PartDone(p, n, i, visits0, seen0, visits1, seen1);
    }

    lemma PartDone(p: int, n: nat, i: nat, visits0: multiset<int>, seen0: set<string>, visits1: multiset<int>,
                   seen1: set<string>)
      requires Linked(procs, children) && Level(procs, p, n) && i < |children[p]|
      requires Progress(procs, visits0, seen0, visits1, seen1, Part(p, i), {})
      requires Progress(procs, visits1, seen1, visits, seen, Subtree(procs, children[p][i]), {})
      ensures Progress(procs, visits0, seen0, visits, seen, Part(p, i + 1), {})
    {
      NextPart(p, n, i);
      ProgressAdds(procs, visits0, seen0, visits1, seen1, Part(p, i), {}, visits, seen,
                   Subtree(procs, children[p][i]), {});
    }

    /** Names a child of a session root and collects its subtree. */
    method CollectTopLevel(appID: int -> string, child: int) returns (name: string)
      requires Linked(procs, children) && Level(procs, child, 1)
      modifies this
      ensures Progress(procs, old(visits), old(seen), visits, seen, Subtree(procs, child), {name})
      ensures ResolvesTo(procs, appID, child, name)
    {
      name := ResolveAppName(procs, children, appID, child, 1);
      seen := seen + {name};
      CollectSubtreeExes(child, 1);
    }

    /** Visits everything below a session root, and names each of its children. */
    method CollectRoot(appID: int -> string, r: int) returns (ghost names: map<int, string>)
      requires Linked(procs, children) && Level(procs, r, 0)
      modifies this
      ensures Progress(procs, old(visits), old(seen), visits, seen, Subtree(procs, r) - {r}, names.Values)
      ensures NamesOf(procs, appID, FirstChildren(children, r, |children[r]|), names)
    {
      names := map[];
      ghost var visits0, seen0 := visits, seen;
      var list := children[r];
      for i := 0 to |list|
        invariant Progress(procs, visits0, seen0, visits, seen, BelowFirst(procs, list, i), names.Values)
        invariant NamesOf(procs, appID, FirstChildren(children, r, i), names)
      {
        names := CollectNext(appID, r, i, visits0, seen0, names);
      }
      SubtreeSplits(procs, children, r, 0);
      assert Subtree(procs, r) - {r} == BelowFirst(procs, list, |list|);
    }

    method CollectNext(appID: int -> string, r: int, i: nat, ghost visits0: multiset<int>, ghost seen0: set<string>,
                       ghost names: map<int, string>)
      returns (ghost more: map<int, string>)
      requires Linked(procs, children) && Level(procs, r, 0) && i < |children[r]|
      requires Progress(procs, visits0, seen0, visits, seen, BelowFirst(procs, children[r], i), names.Values)
      requires NamesOf(procs, appID, FirstChildren(children, r, i), names)
      modifies this
      ensures Progress(procs, visits0, seen0, visits, seen, BelowFirst(procs, children[r], i + 1), more.Values)
      ensures NamesOf(procs, appID, FirstChildren(children, r, i + 1), more)
    {
      var child := children[r][i];
      ghost var visits1, seen1 := visits, seen;
      ChildLevel(procs, children, r, 0, child);
      BelowFirstGrows(procs, children, r, 0, i);
      FirstChildrenGrow(children, r, i);
      var name := CollectTopLevel(appID, child);
      ghost var found := map[child := name];
      SingleName(procs, appID, child, name);
      MergeNames(procs, appID, FirstChildren(children, r, i), names, {child}, found);
      ProgressAdds(procs, visits0, seen0, visits1, seen1, BelowFirst(procs, children[r], i), names.Values,
                   visits, seen, Subtree(procs, child), found.Values);
      more := names + found;
    }

    /** Finds the session roots, in any order, and collects below each: every process below a
        root is visited exactly once, no other is, and the names are exactly these. */
    method FindTopLevelApps(appID: int -> string) returns (result: set<string>, ghost names: map<int, string>)
      requires Linked(procs, children) && seen == {} && visits == multiset{}
      modifies this
      ensures visits == multiset(BelowRoots(procs))
      ensures result == AllLabels(procs, BelowRoots(procs)) + names.Values
      ensures NamesOf(procs, appID, TopLevelApps(procs), names)
    {
      names := ScanAll(appID);
      assert procs.Keys - {} == procs.Keys;
      AllUnderRoots(procs);
      result := seen;
    }

    method ScanAll(appID: int -> string) returns (ghost names: map<int, string>)
      requires Linked(procs, children) && seen == {} && visits == multiset{}
      modifies this
      ensures Progress(procs, multiset{}, {}, visits, seen, UnderRoots(procs, procs.Keys - {}), names.Values)
      ensures NamesOf(procs, appID, TopLevel(procs, procs.Keys - {}), names)
    {
      names := map[];
      var todo := procs.Keys;
      NothingScanned(procs, appID);
      while todo != {}
        invariant todo <= procs.Keys
        invariant Progress(procs, multiset{}, {}, visits, seen, UnderRoots(procs, procs.Keys - todo), names.Values)
        invariant NamesOf(procs, appID, TopLevel(procs, procs.Keys - todo), names)
      {
        var r := Pick(todo);
        OneMoreDone(procs.Keys, todo, r);
        names := ScanOne(appID, r, procs.Keys - todo, names);
        todo := todo - {r};
      }
    }

    method ScanOne(appID: int -> string, r: int, ghost done: set<int>, ghost names: map<int, string>)
      returns (ghost more: map<int, string>)
      requires Linked(procs, children) && r in procs && r !in done
      requires Progress(procs, multiset{}, {}, visits, seen, UnderRoots(procs, done), names.Values)
      requires NamesOf(procs, appID, TopLevel(procs, done), names)
      modifies this
      ensures Progress(procs, multiset{}, {}, visits, seen, UnderRoots(procs, done + {r}), more.Values)
      ensures NamesOf(procs, appID, TopLevel(procs, done + {r}), more)
    {
      UnderRootsGrow(procs, done, r);
      if procs[r].ppid in procs {
        return names;
      }
      ghost var visits1, seen1 := visits, seen;
      ghost var found := CollectRoot(appID, r);
      TopLevelGrows(procs, children, done, r);
      MergeNames(procs, appID, TopLevel(procs, done), names, FirstChildren(children, r, |children[r]|), found);
      ProgressAdds(procs, multiset{}, {}, visits1, seen1, UnderRoots(procs, done), names.Values,
                   visits, seen, Subtree(procs, r) - {r}, found.Values);
      more := names + found;
    }
  }

  /** Scans any snapshot: builds the tree and lists the apps. */
  method ScanUserProcesses(procs: Snapshot, appID: int -> string)
    returns (apps: set<string>, ghost visits: multiset<int>, ghost names: map<int, string>)
    ensures visits == multiset(BelowRoots(procs))
    ensures forall x :: x in apps <==>
              x in names.Values || exists p :: p in BelowRoots(procs) && NotedAs(procs[p], x)
    ensures NamesOf(procs, appID, TopLevelApps(procs), names)
  {
    var children := BuildProcessTree(procs);
    var scan := new Scan(procs, children);
    apps, names := scan.FindTopLevelApps(appID);
    visits := scan.visits;
    forall x
      ensures x in AllLabels(procs, BelowRoots(procs)) <==> exists p :: p in BelowRoots(procs) && NotedAs(procs[p], x)
    {
      NotedExact(procs, BelowRoots(procs), x);
    }
  }

  lemma NothingScanned(procs: Snapshot, appID: int -> string)
    ensures var none: map<int, string> := map[];
            && Progress(procs, multiset{}, {}, multiset{}, {}, UnderRoots(procs, procs.Keys - procs.Keys), none.Values)
            && NamesOf(procs, appID, TopLevel(procs, procs.Keys - procs.Keys), none)
  {
  }

  lemma TopLevelGrows(procs: Snapshot, children: map<int, seq<int>>, done: set<int>, r: int)
    requires Linked(procs, children) && Level(procs, r, 0) && r !in done
    ensures TopLevel(procs, done + {r}) == TopLevel(procs, done) + FirstChildren(children, r, |children[r]|)
    ensures TopLevel(procs, done) !! FirstChildren(children, r, |children[r]|)
  {
    var list := children[r];
    assert list[..|list|] == list;
    forall c ensures c in list <==> c in TopLevel(procs, {r}) {
      assert c in list <==> c in procs && procs[c].ppid == r;
    }
    assert FirstChildren(children, r, |list|) == TopLevel(procs, {r});
  }
}
