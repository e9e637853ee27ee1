// Application ids in control-group paths (internal/activity/proc.go). The name of a scope is
// laid down in the section "XDG standardization for applications" of systemd's Desktop
// Environment Integration document.

module Cgroup {
  import opened Wrappers
  import opened Text

  /** How systemd writes a hyphen inside a unit name. It escapes a backslash too, and so never
      writes an id that holds these four characters as they are; another writer may. */
  const ESCAPED: string := "\\x2d"

  /** Drops a trailing "-<number>". */
  function StripPid(s: string): string {
    var dash := LastIndex(s, "-");
    if dash > 0 && Atoi(s[dash + 1..]).Some? then s[..dash] else s
  }

  /** What follows the last "/app-", up to a final ".scope". */
  function ScopeName(line: string): Option<string> {
    var at := LastIndex(line, "/app-");
    if at < 0 then None else Some(TrimPrefix(TrimSuffix(line[at + 1..], ".scope"), "app-"))
  }

  /** Launcher, body and number: the body, unescaped. */
  function BodyOf(name: string): Option<string> {
    var dash := IndexOf(name, '-');
    if dash < 0 then None
    else
      var body := StripPid(name[dash + 1..]);
      if body == "" then None else Some(ReplaceAll(body, ESCAPED, "-"))
  }

  /** The id that one line gives, if any. */
  function ParseLine(line: string): Option<string> {
    if ScopeName(line).None? then None else BodyOf(ScopeName(line).value)
  }

  /** The id of the first line that gives one. */
  function FirstID(lines: seq<string>): string {
    if lines == [] then ""
    else if ParseLine(lines[0]).Some? then ParseLine(lines[0]).value
    else FirstID(lines[1..])
  }

  method ParseAppIDFromCgroupData(data: string) returns (id: string)
    ensures id == FirstID(Split(data, '\n'))
  {
    var lines := Split(data, '\n');
    for k := 0 to |lines|
      invariant FirstID(lines[k..]) == FirstID(lines)
    {
      assert lines[k..][0] == lines[k] && lines[k..][1..] == lines[k + 1..];
      var name := ScopeName(lines[k]);
      if name.None? {
        continue;
      }
      var found := BodyOf(name.value);
      if found.None? {
        continue;
      }
      return found.value;
    }
    return "";
  }

  // ----- writing a scope name -----

  function Escape(id: string): string {
    if id == [] then [] else (if id[0] == '-' then ESCAPED else [id[0]]) + Escape(id[1..])
  }

  /** The path of a scope: any prefix, then "app-<launcher>-<body>-<pid>.scope". */
  function ScopePath(prefix: string, launcher: string, body: string, pid: string): string {
    prefix + "/app-" + launcher + "-" + body + "-" + pid + ".scope"
  }

  predicate IsPid(pid: string) {
    pid != "" && AllDigits(pid) && DecimalValue(pid) <= MAX_INT64
  }

  predicate Contains(s: string, pat: string) {
    exists i :: 0 <= i <= |s| && OccursAt(s, pat, i)
  }

  // ----- what unescaping undoes -----

  lemma OccurrenceHead(s: string, pat: string, i: int)
    requires OccursAt(s, pat, i) && pat != []
    ensures s[i] == pat[0]
  {
  }

  lemma ContainsTail(s: string, pat: string)
    requires s != [] && !(pat <= s)
    ensures Contains(s, pat) <==> Contains(s[1..], pat)
  {
    var tail := s[1..];
    forall i | 0 < i <= |s| ensures OccursAt(s, pat, i) <==> OccursAt(tail, pat, i - 1) {
      if i + |pat| <= |s| {
        var here, there := s[i..i + |pat|], tail[i - 1..i - 1 + |pat|];
        assert forall k :: 0 <= k < |pat| ==> here[k] == s[i + k] && there[k] == tail[i - 1 + k];
        assert here == there;
      }
    }
    if i :| 0 <= i <= |s| && OccursAt(s, pat, i) {
      assert i != 0 by { assert s[0..|pat|] == s[..|pat|]; }
      assert OccursAt(tail, pat, i - 1);
    }
    if i :| 0 <= i <= |tail| && OccursAt(tail, pat, i) {
      assert OccursAt(s, pat, i + 1);
    }
  }

  /** Unescaping keeps a text exactly when there is nothing in it to unescape. */
  lemma {:induction false} UnescapeKeeps(s: string)
    ensures |ReplaceAll(s, ESCAPED, "-")| <= |s|
    ensures ReplaceAll(s, ESCAPED, "-") == s <==> !Contains(s, ESCAPED)
  {
    if s == [] {
    } else if ESCAPED <= s {
      UnescapeKeeps(s[4..]);
      assert OccursAt(s, ESCAPED, 0);
    } else {
      UnescapeKeeps(s[1..]);
      ContainsTail(s, ESCAPED);
      assert s == [s[0]] + s[1..];
    }
  }

  /** An escaped text starts with a character other than a backslash only if the text does. */
  lemma EscapeHead(id: string)
    ensures Escape(id) == [] <==> id == []
    ensures id != [] && id[0] != '-' ==> Escape(id)[0] == id[0] && Escape(id)[1..] == Escape(id[1..])
    ensures id != [] && id[0] == '-' ==> Escape(id)[0] == '\\' && Escape(id) == ESCAPED + Escape(id[1..])
  {
  }

  /** Escaping brings up no characters but hyphens' escapes. */
  lemma {:induction false} EscapeStart(id: string, pat: string)
    requires '\\' !in pat && pat <= Escape(id)
    ensures pat <= id
  {
    if pat != [] {
      EscapeHead(id);
      assert pat[0] == Escape(id)[0] && pat[0] in pat;
      assert pat[1..] <= Escape(id)[1..];
      EscapeStart(id[1..], pat[1..]);
      assert pat == [pat[0]] + pat[1..] && id == [id[0]] + id[1..];
    }
  }

  lemma NoNewEscape(id: string)
    requires id != [] && id[0] != '-' && !(ESCAPED <= id)
    ensures !(ESCAPED <= Escape(id))
  {
    EscapeHead(id);
    if ESCAPED <= Escape(id) {
      assert ESCAPED[0] == Escape(id)[0] == id[0];
      assert ESCAPED[1..] == "x2d" && "x2d" <= Escape(id)[1..];
      EscapeStart(id[1..], "x2d");
    }
  }

  /** Escaping first makes no difference to unescaping. */
  lemma {:induction false} UnescapeEscape(id: string)
    ensures ReplaceAll(Escape(id), ESCAPED, "-") == ReplaceAll(id, ESCAPED, "-")
  {
    if id == [] {
    } else if id[0] == '-' {
      EscapeHead(id);
      UnescapeEscape(id[1..]);
      assert Escape(id)[4..] == Escape(id[1..]);
    } else if ESCAPED <= id {
      EscapePlain(id[..4], id[4..]);
      UnescapeEscape(id[4..]);
      assert id == id[..4] + id[4..];
      assert Escape(id)[4..] == Escape(id[4..]);
    } else {
      EscapeHead(id);
      NoNewEscape(id);
      UnescapeEscape(id[1..]);
    }
  }

  /** An escape does not reach over a plain hyphen. */
  lemma EscapeEndsEarlier(x: string, y: string)
    ensures ESCAPED <= x + "-" + y <==> ESCAPED <= x
  {
    var s := x + "-" + y;
    assert s[|x|] == '-' && forall k :: 0 <= k < 4 ==> ESCAPED[k] != '-';
    if |x| >= 4 {
      assert s[..4] == x[..4];
    }
  }

  /** Unescaping leaves a plain hyphen where it is. */
  lemma {:induction false} UnescapeAtHyphen(x: string, y: string)
    ensures ReplaceAll(x + "-" + y, ESCAPED, "-") == ReplaceAll(x, ESCAPED, "-") + "-" + ReplaceAll(y, ESCAPED, "-")
  {
    var s := x + "-" + y;
    EscapeEndsEarlier(x, y);
    if x == [] {
      assert s[0] == '-' && s[1..] == y;
    } else if ESCAPED <= x {
      assert s[4..] == x[4..] + "-" + y;
      UnescapeAtHyphen(x[4..], y);
    } else {
      assert s[1..] == x[1..] + "-" + y;
      UnescapeAtHyphen(x[1..], y);
    }
  }

  /** What an unescaped text starts with, short of hyphens and backslashes, the text starts with. */
  lemma {:induction false} UnescapedStart(s: string, pat: string)
    requires '\\' !in pat && '-' !in pat && pat <= ReplaceAll(s, ESCAPED, "-")
    ensures pat <= s
  {
    if pat != [] {
      var r := ReplaceAll(s, ESCAPED, "-");
      assert pat[0] == r[0] && pat[0] in pat;
      assert r == [s[0]] + ReplaceAll(s[1..], ESCAPED, "-");
      assert pat[1..] <= r[1..];
      UnescapedStart(s[1..], pat[1..]);
      assert pat == [pat[0]] + pat[1..] && s == [s[0]] + s[1..];
    }
  }

  lemma EscapeWasThere(s: string)
    requires s != [] && ESCAPED <= [s[0]] + ReplaceAll(s[1..], ESCAPED, "-")
    ensures ESCAPED <= s
  {
    var rest := ReplaceAll(s[1..], ESCAPED, "-");
    assert ESCAPED == ['\\'] + "x2d" && ([s[0]] + rest)[1..] == rest;
    assert ESCAPED[1..] == "x2d" && "x2d" <= rest;
    UnescapedStart(s[1..], "x2d");
    assert s == [s[0]] + s[1..];
  }

  /** Unescaping brings up no new escapes. */
  lemma {:induction false} UnescapedHasNone(s: string)
    ensures !Contains(ReplaceAll(s, ESCAPED, "-"), ESCAPED)
  {
    var r := ReplaceAll(s, ESCAPED, "-");
    if s == [] {
    } else if ESCAPED <= s {
      UnescapedHasNone(s[4..]);
      assert r[0] == '-' && r[1..] == ReplaceAll(s[4..], ESCAPED, "-");
      ContainsTail(r, ESCAPED);
    } else {
      UnescapedHasNone(s[1..]);
      assert r[1..] == ReplaceAll(s[1..], ESCAPED, "-");
      assert !(ESCAPED <= r) by {
        if ESCAPED <= r { EscapeWasThere(s); }
      }
      ContainsTail(r, ESCAPED);
    }
  }

  /** Nor does joining with a hyphen. */
  lemma {:induction false} JoinedHasNone(x: string, y: string)
    requires !Contains(x, ESCAPED) && !Contains(y, ESCAPED)
    ensures !Contains(x + "-" + y, ESCAPED)
  {
    var s := x + "-" + y;
    EscapeEndsEarlier(x, y);
    assert ESCAPED <= x ==> OccursAt(x, ESCAPED, 0);
    ContainsTail(s, ESCAPED);
    if x == [] {
      assert s[1..] == y;
    } else {
      ContainsTail(x, ESCAPED);
      assert s[1..] == x[1..] + "-" + y;
      JoinedHasNone(x[1..], y);
    }
  }

  lemma {:induction false} EscapePlain(a: string, b: string)
    requires '-' !in a
    ensures Escape(a + b) == a + Escape(b)
  {
    if a == [] {
      assert a + b == b;
    } else {
      assert (a + b)[1..] == a[1..] + b;
      EscapePlain(a[1..], b);
    }
  }

  lemma {:induction false} EscapeKeepsOut(id: string, c: char)
    requires c !in id && c !in ESCAPED
    ensures c !in Escape(id)
  {
    if id != [] {
      EscapeKeepsOut(id[1..], c);
    }
  }

  // ----- the round trip -----

  lemma LastSlash(a: string, b: string)
    requires '/' !in b && "app-" <= b
    ensures LastIndex(a + "/" + b, "/app-") == |a|
  {
    var s := a + "/" + b;
    assert s[|a|..|a| + 5] == "/" + b[..4];
    assert OccursAt(s, "/app-", |a|);
    forall j | |a| < j ensures !OccursAt(s, "/app-", j) {
      if j < |s| {
        assert s[j] == b[j - |a| - 1];
      }
      if OccursAt(s, "/app-", j) {
        OccurrenceHead(s, "/app-", j);
      }
    }
    LastIndexIs(s, "/app-", |a|);
  }

  /** What stands behind the last hyphen is dropped with it exactly if it is a number, and
      something stands before. */
  lemma StripExact(front: string, last: string)
    requires '-' !in last
    ensures StripPid(front + "-" + last) == if front != "" && Atoi(last).Some? then front else front + "-" + last
  {
    var s := front + "-" + last;
    assert s[|front|..|front| + 1] == "-";
    assert OccursAt(s, "-", |front|);
    forall j | |front| < j ensures !OccursAt(s, "-", j) {
      if j < |s| {
        assert s[j] == last[j - |front| - 1];
      }
      if OccursAt(s, "-", j) {
        OccurrenceHead(s, "-", j);
      }
    }
    LastIndexIs(s, "-", |front|);
    assert s[|front| + 1..] == last && s[..|front|] == front;
  }

  lemma StripNothing(s: string)
    requires '-' !in s
    ensures StripPid(s) == s
  {
    var dash := LastIndex(s, "-");
    if dash >= 0 {
      OccurrenceHead(s, "-", dash);
    }
  }

  lemma StripsPid(body: string, pid: string)
    requires body != "" && IsPid(pid)
    ensures StripPid(body + "-" + pid) == body
  {
    assert '-' !in pid && Atoi(pid).Some?;
    StripExact(body, pid);
  }

  lemma FirstDash(launcher: string, remainder: string)
    requires '-' !in launcher
    ensures var rest := launcher + "-" + remainder;
            IndexOf(rest, '-') == |launcher| && rest[|launcher| + 1..] == remainder
  {
    var rest := launcher + "-" + remainder;
    assert rest[..|launcher|] == launcher;
    IndexOfIs(rest, '-', |launcher|);
  }

  lemma TrimsScope(rest: string)
    ensures TrimPrefix(TrimSuffix("app-" + rest + ".scope", ".scope"), "app-") == rest
  {
  }

  lemma ScopeNameOf(prefix: string, rest: string)
    requires '/' !in rest
    ensures ScopeName(prefix + "/" + ("app-" + rest + ".scope")) == Some(rest)
  {
    var scope := "app-" + rest + ".scope";
    LastSlash(prefix, scope);
    assert (prefix + "/" + scope)[|prefix| + 1..] == scope;
    TrimsScope(rest);
  }

  lemma PathParts(prefix: string, launcher: string, body: string, pid: string)
    ensures ScopePath(prefix, launcher, body, pid)
            == prefix + "/" + ("app-" + (launcher + "-" + (body + "-" + pid)) + ".scope")
  {
  }

  /** A scope path gives the unescaped body. */
  lemma ParseScope(prefix: string, launcher: string, body: string, pid: string)
    requires '-' !in launcher && '/' !in launcher && '/' !in body && body != "" && IsPid(pid)
    ensures ParseLine(ScopePath(prefix, launcher, body, pid)) == Some(ReplaceAll(body, ESCAPED, "-"))
  {
    var name := launcher + "-" + (body + "-" + pid);
    PathParts(prefix, launcher, body, pid);
    ScopeNameOf(prefix, name);
    FirstDash(launcher, body + "-" + pid);
    StripsPid(body, pid);
  }

  /** Without a number at its end, the whole rest is the id. */
  lemma ParseUnnumbered(prefix: string, launcher: string, front: string, last: string)
    requires '-' !in launcher && '/' !in launcher && '/' !in front && '/' !in last && '-' !in last
    requires front == "" || Atoi(last).None?
    ensures ParseLine(prefix + "/" + ("app-" + (launcher + "-" + (front + "-" + last)) + ".scope"))
            == Some(ReplaceAll(front + "-" + last, ESCAPED, "-"))
  {
    ScopeNameOf(prefix, launcher + "-" + (front + "-" + last));
    FirstDash(launcher, front + "-" + last);
    StripExact(front, last);
  }

  /** A single word behind the launcher is the id, even if it is a number; nothing is none. */
  lemma ParseSingle(prefix: string, launcher: string, word: string)
    requires '-' !in launcher && '/' !in launcher && '/' !in word && '-' !in word
    ensures ParseLine(prefix + "/" + ("app-" + (launcher + "-" + word) + ".scope"))
            == if word == "" then None else Some(ReplaceAll(word, ESCAPED, "-"))
  {
    ScopeNameOf(prefix, launcher + "-" + word);
    FirstDash(launcher, word);
    StripNothing(word);
  }

  /** No id without a launcher's hyphen. */
  lemma ParseNoLauncher(prefix: string, rest: string)
    requires '/' !in rest && '-' !in rest
    ensures ParseLine(prefix + "/" + ("app-" + rest + ".scope")).None?
  {
    ScopeNameOf(prefix, rest);
  }

  /** Nor in a line without an application's scope. */
  lemma ParseNoScope(line: string)
    requires forall i :: 0 <= i <= |line| ==> !OccursAt(line, "/app-", i)
    ensures ParseLine(line).None?
  {
    var at := LastIndex(line, "/app-");
    assert at < 0;
  }

  lemma PathRegroups(prefix: string, front: string, back: string, body: string, pid: string)
    ensures ScopePath(prefix, front + "-" + back, body, pid) == ScopePath(prefix, front, back + "-" + body, pid)
  {
    var end := "-" + pid + ".scope";
    assert front + "-" + back + "-" + body == front + "-" + (back + "-" + body);
  }

  /** A launcher with a hyphen: all behind its first one counts as part of the id. */
  lemma ParseHyphenLauncher(prefix: string, front: string, back: string, body: string, pid: string)
    requires '-' !in front && '/' !in front && '/' !in back && '/' !in body && IsPid(pid)
    ensures ParseLine(ScopePath(prefix, front + "-" + back, body, pid))
            == Some(ReplaceAll(back, ESCAPED, "-") + "-" + ReplaceAll(body, ESCAPED, "-"))
  {
    PathRegroups(prefix, front, back, body, pid);
    ParseScope(prefix, front, back + "-" + body, pid);
    UnescapeAtHyphen(back, body);
  }

  /** Then the id never comes back. */
  lemma HyphenLauncherLosesID(front: string, id: string)
    ensures ReplaceAll(front, ESCAPED, "-") + "-" + ReplaceAll(id, ESCAPED, "-") != id
  {
    var x, y := ReplaceAll(front, ESCAPED, "-"), ReplaceAll(id, ESCAPED, "-");
    UnescapedHasNone(front);
    UnescapedHasNone(id);
    JoinedHasNone(x, y);
    UnescapeKeeps(id);
  }

  lemma SplitLauncher(launcher: string) returns (front: string, back: string)
    requires '-' in launcher
    ensures launcher == front + "-" + back && '-' !in front
    ensures '/' !in launcher ==> '/' !in front && '/' !in back
  {
    var dash := IndexOf(launcher, '-');
    front, back := launcher[..dash], launcher[dash + 1..];
  }

  lemma HyphenLauncherLine(prefix: string, front: string, back: string, id: string, pid: string)
    requires '-' !in front && '/' !in front && '/' !in back && '/' !in id && IsPid(pid)
    ensures var parsed := ParseLine(ScopePath(prefix, front + "-" + back, Escape(id), pid));
            parsed.Some? && parsed.value != id
  {
    EscapeKeepsOut(id, '/');
    ParseHyphenLauncher(prefix, front, back, Escape(id), pid);
    UnescapeEscape(id);
    HyphenLauncherLosesID(back, id);
  }

  lemma PlainLauncherLine(prefix: string, launcher: string, id: string, pid: string)
    requires '-' !in launcher && '/' !in launcher && '/' !in id && id != "" && IsPid(pid)
    ensures var parsed := ParseLine(ScopePath(prefix, launcher, Escape(id), pid));
            parsed.Some? && (parsed.value == id <==> !Contains(id, ESCAPED))
  {
    EscapeHead(id);
    EscapeKeepsOut(id, '/');
    ParseScope(prefix, launcher, Escape(id), pid);
    UnescapeEscape(id);
    UnescapeKeeps(id);
  }

  /** Parsing the path gives back the id that was escaped into the scope's name exactly if the
      launcher has no hyphen and the id contains no escaped one. */
  lemma ScopeLineRoundTrip(prefix: string, launcher: string, id: string, pid: string)
    requires '/' !in launcher && '/' !in id && id != "" && IsPid(pid)
    ensures var parsed := ParseLine(ScopePath(prefix, launcher, Escape(id), pid));
            parsed.Some? && (parsed.value == id <==> '-' !in launcher && !Contains(id, ESCAPED))
  {
    if '-' in launcher {
      var front, back := SplitLauncher(launcher);
      HyphenLauncherLine(prefix, front, back, id, pid);
    } else {
      PlainLauncherLine(prefix, launcher, id, pid);
    }
  }

  lemma {:induction false} SkipsOthers(before: seq<string>, lines: seq<string>)
    requires forall b :: b in before ==> ParseLine(b).None?
    ensures FirstID(before + lines) == FirstID(lines)
  {
    if before == [] {
      assert before + lines == lines;
    } else {
      assert before[0] in before;
      assert (before + lines)[1..] == before[1..] + lines;
      SkipsOthers(before[1..], lines);
    }
  }

  lemma FirstIDIs(before: seq<string>, line: string, after: seq<string>)
    requires forall b :: b in before ==> ParseLine(b).None?
    requires ParseLine(line).Some?
    ensures FirstID(before + [line] + after) == ParseLine(line).value
  {
    Regroup(before, [line], after);
    SkipsOthers(before, [line] + after);
  }

  /** So does parsing the whole data, if it is the first line that matches. */
  lemma ScopeRoundTrip(before: seq<string>, prefix: string, launcher: string, id: string, pid: string,
                       after: seq<string>)
    requires forall line :: line in before + after ==> '\n' !in line
    requires forall line :: line in before ==> ParseLine(line).None?
    requires '\n' !in prefix && '\n' !in launcher && '\n' !in id
    requires '/' !in launcher && '/' !in id && id != "" && IsPid(pid)
    ensures var line := ScopePath(prefix, launcher, Escape(id), pid);
            var data := Join(before + [line] + after, '\n');
            FirstID(Split(data, '\n')) == id <==> '-' !in launcher && !Contains(id, ESCAPED)
  {
    var line := ScopePath(prefix, launcher, Escape(id), pid);
    var lines := before + [line] + after;
    EscapeKeepsOut(id, '\n');
    ScopeLineRoundTrip(prefix, launcher, id, pid);
    FirstIDIs(before, line, after);
    PathHasNoNewline(prefix, launcher, Escape(id), pid);
    forall l | l in lines ensures '\n' !in l {
      assert l in before + after || l == line;
    }
    SplitJoin(lines, '\n');
    SplitEachWithout(lines, '\n');
  }

  lemma PathHasNoNewline(prefix: string, launcher: string, body: string, pid: string)
    requires '\n' !in prefix && '\n' !in launcher && '\n' !in body && AllDigits(pid)
    ensures '\n' !in ScopePath(prefix, launcher, body, pid)
  {
  }

  /** From a launcher without a hyphen an id without a backslash always comes back. */
  lemma PlainIDComesBack(before: seq<string>, prefix: string, launcher: string, id: string, pid: string,
                         after: seq<string>)
    requires forall line :: line in before + after ==> '\n' !in line
    requires forall line :: line in before ==> ParseLine(line).None?
    requires '\n' !in prefix && '\n' !in launcher && '\n' !in id && '\\' !in id
    requires '-' !in launcher && '/' !in launcher && '/' !in id && id != "" && IsPid(pid)
    ensures var line := ScopePath(prefix, launcher, Escape(id), pid);
            FirstID(Split(Join(before + [line] + after, '\n'), '\n')) == id
  {
    ScopeRoundTrip(before, prefix, launcher, id, pid, after);
    if i :| 0 <= i <= |id| && OccursAt(id, ESCAPED, i) {
      OccurrenceHead(id, ESCAPED, i);
    }
  }

  lemma UnescapesOne(a: char, b: char)
    requires a != '\\' && b != '\\'
    ensures ReplaceAll([a] + (ESCAPED + [b]), ESCAPED, "-") == [a, '-', b]
  {
    var tail := ESCAPED + [b];
    assert tail[4..] == [b] && ESCAPED <= tail;
    assert ([a] + tail)[1..] == tail && ESCAPED[0] == '\\';
    assert [b][1..] == "" && ReplaceAll([b], ESCAPED, "-") == [b];
  }

  /** An id such as a\x2db comes back as a-b. */
  lemma EscapedHyphenIsLost(prefix: string, launcher: string, a: char, b: char, pid: string)
    requires '-' !in launcher && '/' !in launcher && IsPid(pid)
    requires a != '\\' && a != '/' && b != '\\' && b != '/'
    ensures var id := [a] + (ESCAPED + [b]);
            ParseLine(ScopePath(prefix, launcher, Escape(id), pid)) == Some([a, '-', b])
  {
    var id := [a] + (ESCAPED + [b]);
    assert '/' !in id;
    EscapeKeepsOut(id, '/');
    EscapeHead(id);
    ParseScope(prefix, launcher, Escape(id), pid);
    UnescapeEscape(id);
    UnescapesOne(a, b);
  }
}
