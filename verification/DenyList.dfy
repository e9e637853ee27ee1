// The deny file: one name a line, sorted, replaced as a whole
// (internal/denylist/denylist.go).

module DenyList {
  import opened Wrappers
  import opened Text
  import opened Sorting

  // ----- the text -----

  function Print(users: seq<string>): string {
    Join(users, '\n') + if users == [] then "" else "\n"
  }

  /** The line without surrounding space, unless that is nothing. */
  function KeptLine(line: string): seq<string> {
    if TrimSpace(line) == "" then [] else [TrimSpace(line)]
  }

  function NonBlank(lines: seq<string>): seq<string> {
    if lines == [] then [] else NonBlank(lines[..|lines| - 1]) + KeptLine(lines[|lines| - 1])
  }

  function Parse(text: string): seq<string> {
    NonBlank(Split(TrimSpace(text), '\n'))
  }

  /** A name that stands on a line of its own as it is. */
  predicate Clean(name: string) {
    name != "" && '\n' !in name && Trimmed(name)
  }

  lemma {:induction false} NonBlankIsClean(lines: seq<string>)
    requires forall line :: line in lines ==> '\n' !in line
    ensures forall name :: name in NonBlank(lines) ==> Clean(name)
  {
    if lines != [] {
      TrimSpaceTrims(lines[|lines| - 1]);
      NonBlankIsClean(lines[..|lines| - 1]);
    }
  }

  /** Only clean names are ever read. */
  lemma ParseIsClean(text: string)
    ensures forall name :: name in Parse(text) ==> Clean(name)
  {
    SplitHasNoSeparator(TrimSpace(text), '\n');
    NonBlankIsClean(Split(TrimSpace(text), '\n'));
  }

  lemma CleanIsKept(line: string)
    requires Clean(line)
    ensures KeptLine(line) == [line]
  {
    TrimSpaceTrims(line);
  }

  lemma {:induction false} NonBlankKeeps(lines: seq<string>)
    requires forall line :: line in lines ==> Clean(line)
    ensures NonBlank(lines) == lines
  {
    if lines != [] {
      InitAndLast(lines);
      CleanIsKept(lines[|lines| - 1]);
      NonBlankKeeps(lines[..|lines| - 1]);
    }
  }

  lemma {:induction false} NonBlankConcat(a: seq<string>, b: seq<string>)
    ensures NonBlank(a + b) == NonBlank(a) + NonBlank(b)
  {
    if b == [] {
      assert a + b == a;
    } else {
      var before, last := b[..|b| - 1], b[|b| - 1];
      NonBlankConcat(a, before);
      NonBlankSnoc(a + before, last);
      InitAndLast(b);
      Regroup(a, before, [last]);
      Regroup(NonBlank(a), NonBlank(before), KeptLine(last));
    }
  }

  lemma NonBlankSnoc(lines: seq<string>, last: string)
    ensures NonBlank(lines + [last]) == NonBlank(lines) + KeptLine(last)
  {
    assert (lines + [last])[..|lines|] == lines;
  }

  lemma {:induction false} InNonBlank(lines: seq<string>, name: string)
    ensures name in NonBlank(lines) <==> name != "" && exists line :: line in lines && TrimSpace(line) == name
  {
    if lines != [] {
      var before, last := lines[..|lines| - 1], lines[|lines| - 1];
      InNonBlank(before, name);
      assert lines == before + [last];
    }
  }

  // ----- trimming the whole text makes no difference -----

  lemma {:induction false} TrimSnoc(line: string, c: char)
    requires IsSpace(c)
    ensures TrimSpace(line + [c]) == TrimSpace(line)
    ensures TrimLeft(line + [c]) == if TrimLeft(line) == "" then "" else TrimLeft(line) + [c]
  {
    if line == "" {
      assert line + [c] == [c];
    } else if IsSpace(line[0]) {
      assert (line + [c])[1..] == line[1..] + [c];
      TrimSnoc(line[1..], c);
    } else {
      assert (line + [c])[..|line|] == line;
    }
  }

  lemma KeepsBefore(c: char, line: string)
    requires IsSpace(c)
    ensures KeptLine([c] + line) == KeptLine(line)
  {
    assert ([c] + line)[1..] == line;
    assert TrimLeft([c] + line) == TrimLeft(line);
  }

  lemma NonBlankCons(first: string, lines: seq<string>)
    ensures NonBlank([first] + lines) == KeptLine(first) + NonBlank(lines)
  {
    NonBlankConcat([first], lines);
    NonBlankSnoc([], first);
    assert [] + [first] == [first];
  }

  lemma {:induction false} LeadingSpace(text: string)
    ensures NonBlank(Split(TrimLeft(text), '\n')) == NonBlank(Split(text, '\n'))
  {
    if text != "" && IsSpace(text[0]) {
      LeadingSpace(text[1..]);
      SpaceBefore(text);
    }
  }

  lemma SpaceBefore(text: string)
    requires text != "" && IsSpace(text[0])
    ensures NonBlank(Split(text[1..], '\n')) == NonBlank(Split(text, '\n'))
  {
    var c, rest := text[0], Split(text[1..], '\n');
    SplitStep(c, text[1..], '\n');
    assert [c] + text[1..] == text;
    NonBlankCons("", rest);
    KeepsBefore(c, rest[0]);
    NonBlankCons([c] + rest[0], rest[1..]);
    NonBlankCons(rest[0], rest[1..]);
    assert [rest[0]] + rest[1..] == rest;
  }

  lemma {:induction false} TrailingSpace(text: string)
    ensures NonBlank(Split(TrimRight(text), '\n')) == NonBlank(Split(text, '\n'))
  {
    if text != "" && IsSpace(text[|text| - 1]) {
      TrailingSpace(text[..|text| - 1]);
      SpaceAfter(text[..|text| - 1], text[|text| - 1]);
      InitAndLast(text);
    }
  }

  lemma SpaceAfter(text: string, c: char)
    requires IsSpace(c)
    ensures NonBlank(Split(text + [c], '\n')) == NonBlank(Split(text, '\n'))
  {
    var lines := Split(text, '\n');
    var before, last := lines[..|lines| - 1], lines[|lines| - 1];
    SplitSnoc(text, c, '\n');
    NonBlankSnoc(lines, "");
    TrimSnoc(last, c);
    NonBlankSnoc(before, last);
    NonBlankSnoc(before, last + [c]);
    InitAndLast(lines);
  }

  /** Reading back what was printed gives the lines of each name in turn, trimmed and without
      the blank ones, whatever the names are. */
  lemma PrintedLines(users: seq<string>)
    ensures Parse(Print(users)) == NonBlank(SplitEach(users, '\n'))
  {
    var text := Print(users);
    LeadingSpace(text);
    TrailingSpace(TrimLeft(text));
    if users != [] {
      SpaceAfter(Join(users, '\n'), '\n');
      SplitJoin(users, '\n');
    }
  }

  /** It gives the same names exactly when all of them are clean. */
  lemma ParsePrint(users: seq<string>)
    ensures Parse(Print(users)) == users <==> forall name :: name in users ==> Clean(name)
  {
    ParseIsClean(Print(users));
    PrintedLines(users);
    if forall name :: name in users ==> Clean(name) {
      SplitEachWithout(users, '\n');
      NonBlankKeeps(users);
    }
  }

  /** A name that was given a space, a tab or a carriage return in front, or behind. */
  lemma SpacedNameIsLost(name: string, c: char)
    requires Clean(name) && c in [' ', '\t', '\r']
    ensures Parse(Print([[c] + name])) == [name] && Parse(Print([name + [c]])) == [name]
  {
    CleanIsKept(name);
    KeepsBefore(c, name);
    TrimSnoc(name, c);
    ReadsOne([c] + name);
    ReadsOne(name + [c]);
  }

  lemma ReadsOne(line: string)
    requires '\n' !in line
    ensures Parse(Print([line])) == KeptLine(line)
  {
    PrintedLines([line]);
    SplitEachWithout([line], '\n');
    NonBlankCons(line, []);
    assert [line] + [] == [line];
  }

  /** A name of printable ASCII characters reads back as it is. */
  lemma PrintableIsClean(name: string)
    requires name != "" && forall c :: c in name ==> '!' <= c <= '~'
    ensures Clean(name)
  {
    assert name[0] in name && name[|name| - 1] in name;
  }

  /** The text is the names in order, each with a newline behind it. */
  lemma {:induction false} PrintEndsLines(users: seq<string>, name: string)
    ensures Print([]) == "" && Print(users + [name]) == Print(users) + name + "\n"
  {
    if users == [] {
      assert [] + [name] == [name];
    } else {
      JoinSnoc(users, name, '\n');
      assert Print(users) == Join(users, '\n') + "\n";
    }
  }

  /** What a name reads back as, line by line. */
  function Pieces(name: string): set<string> {
    set line | line in Split(name, '\n') && TrimSpace(line) != "" :: TrimSpace(line)
  }

  function ReadBack(names: set<string>): set<string> {
    set name, piece | name in names && piece in Pieces(name) :: piece
  }

  lemma PiecesExact(name: string)
    ensures Pieces(name) == {name} <==> Clean(name)
    ensures forall piece :: piece in Pieces(name) ==> Clean(piece)
    ensures '\n' !in name && TrimSpace(name) != "" ==> Pieces(name) == {TrimSpace(name)}
  {
    SplitHasNoSeparator(name, '\n');
    forall piece | piece in Pieces(name) ensures Clean(piece) {
      var line :| line in Split(name, '\n') && TrimSpace(line) == piece;
      TrimSpaceTrims(line);
    }
    assert Pieces(name) == {name} ==> name in Pieces(name);
    if '\n' !in name {
      SplitWithoutSeparator(name, '\n');
      TrimSpaceTrims(name);
    }
  }

  /** A set of names reads back as itself exactly when all of them are clean. */
  lemma ReadBackExact(names: set<string>)
    ensures ReadBack(names) == names <==> forall name :: name in names ==> Clean(name)
    ensures forall name :: name in ReadBack(names) ==> Clean(name)
    ensures forall name :: name in names && Clean(name) ==> name in ReadBack(names)
  {
    forall name ensures Pieces(name) == {name} <==> Clean(name)
      ensures forall piece :: piece in Pieces(name) ==> Clean(piece)
    {
      PiecesExact(name);
    }
    forall name | name in names && Clean(name) ensures name in ReadBack(names) {
      assert name in Pieces(name);
    }
  }

  lemma PrintedSet(users: seq<string>, names: set<string>)
    requires forall u :: u in users <==> u in names
    ensures (set name | name in Parse(Print(users))) == ReadBack(names)
  {
    PrintedLines(users);
    forall name ensures name in Parse(Print(users)) <==> name in ReadBack(names) {
      InNonBlank(SplitEach(users, '\n'), name);
      if line :| line in SplitEach(users, '\n') && TrimSpace(line) == name != "" {
        InSplitEach(users, '\n', line);
        var u :| u in users && line in Split(u, '\n');
        assert name in Pieces(u);
      }
      if name in ReadBack(names) {
        var u :| u in names && name in Pieces(u);
        var line :| line in Split(u, '\n') && TrimSpace(line) == name != "";
        InSplitEach(users, '\n', line);
      }
    }
  }

  // ----- the file -----

  function Names(content: Option<string>): seq<string> {
    if content.None? then [] else Parse(content.value)
  }

  function Filter(users: seq<string>, listed: seq<string>): (added: seq<string>)
    ensures forall u :: u in added <==> u in users && u !in listed
  {
    if users == [] then []
    else
      var user := users[|users| - 1];
      Filter(users[..|users| - 1], listed) + if user in listed then [] else [user]
  }

  /** Filtering keeps every occurrence of the names that are not listed. */
  lemma {:induction false} FilterCounts(users: seq<string>, listed: seq<string>, u: string)
    ensures multiset(Filter(users, listed))[u] == if u in listed then 0 else multiset(users)[u]
  {
    if users != [] {
      var before := users[..|users| - 1];
      var last := users[|users| - 1];
      FilterCounts(before, listed, u);
      InitAndLast(users);
      assert multiset(before + [last]) == multiset(before) + multiset{last};
    }
  }

  class DenyFile {
    /** No file, or its text. */
    var content: Option<string>

    constructor ()
      ensures content == None
    {
      content := None;
    }

    /** A missing file reads as no names. */
    method Read(readable: bool) returns (users: Result<seq<string>>)
      ensures users == if content.Some? && !readable then Err else Ok(Names(content))
    {
      if content.None? {
        return Ok([]);
      }
      if !readable {
        return Err;
      }
      var lines := Split(TrimSpace(content.value), '\n');
      var found := [];
      for k := 0 to |lines|
        invariant found == NonBlank(lines[..k])
      {
        assert lines[..k + 1][..k] == lines[..k];
        var line := TrimSpace(lines[k]);
        if line != "" {
          found := found + [line];
        }
      }
      assert lines[..|lines|] == lines;
      return Ok(found);
    }

    /** Sorts the given names in place and replaces the file, or leaves it as it was. */
    method Write(users: array<string>, writable: bool) returns (ok: bool)
      modifies this, users
      ensures SortedBy(BY_NAME, users[..]) && multiset(users[..]) == multiset(old(users[..]))
      ensures ok == writable
      ensures content == if writable then Some(Print(users[..])) else old(content)
    {
      StringOrder();
      SortInPlace(users, BY_NAME);
      if !writable {
        return false;
      }
      var text := Join(users[..], '\n');
      assert text + "" == text;
      if users.Length > 0 {
        text := text + "\n";
      }
      content := Some(text);
      return true;
    }

    /** Brings the file in line with the denied names; says which of them it did not list. */
    method Sync(denied: array<string>, readable: bool, writable: bool) returns (added: seq<string>, ok: bool)
      modifies this, denied
      ensures ok == ((old(content).None? || readable) && writable)
      ensures ok ==> SortedBy(BY_NAME, denied[..]) && content == Some(Print(denied[..]))
      ensures !ok ==> content == old(content)
      ensures multiset(denied[..]) == multiset(old(denied[..]))
      ensures added == if old(content).None? || readable then Filter(old(denied[..]), Names(old(content))) else []
    {
      var current := Read(readable);
      if current.Err? {
        return [], false;
      }
      added := NotListed(denied[..], current.value);
      ok := Write(denied, writable);
    }
  }

  /** The names that are not in the list read, looked up in a set. */
  method NotListed(denied: seq<string>, current: seq<string>) returns (added: seq<string>)
    ensures added == Filter(denied, current)
  {
    var listed := set u | u in current;
    added := [];
    for k := 0 to |denied|
      invariant added == Filter(denied[..k], current)
    {
      assert denied[..k + 1][..k] == denied[..k];
      if denied[k] !in listed {
        added := added + [denied[k]];
      }
    }
    assert denied[..|denied|] == denied;
  }
}
