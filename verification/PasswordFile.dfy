/** Removing a user from the broker's password file: split into lines, filter, join. */
module PasswordFile {

  const NEWLINE: char := '\n'

  // ---- lines ----

  function Split(s: string): (lines: seq<string>)
    ensures |lines| >= 1
    ensures forall i :: 0 <= i < |lines| ==> NEWLINE !in lines[i]
  {
    if s == "" then [""]
    else
      var rest := Split(s[1..]);
      if s[0] == NEWLINE then [""] + rest else [[s[0]] + rest[0]] + rest[1..]
  }

  function Join(lines: seq<string>): string {
    if lines == [] then ""
    else if |lines| == 1 then lines[0]
    else lines[0] + [NEWLINE] + Join(lines[1..])
  }

  lemma {:induction false} JoinUndoesSplit(s: string)
    ensures Join(Split(s)) == s
  {
    if s != "" {
      var rest := Split(s[1..]);
      JoinUndoesSplit(s[1..]);
      if s[0] == NEWLINE {
        assert Split(s)[1..] == rest;
        assert Join(Split(s)) == [NEWLINE] + s[1..];
      } else {
        assert Split(s)[1..] == rest[1..];
        assert Join(Split(s)) == [s[0]] + Join(rest);
      }
    }
  }

  lemma {:induction false} SplitLine(line: string)
    requires NEWLINE !in line
    ensures Split(line) == [line]
  {
    if line != "" {
      SplitLine(line[1..]);
      assert [line[0]] + line[1..] == line;
    }
  }

  lemma {:induction false} SplitFirst(line: string, tail: string)
    requires NEWLINE !in line
    ensures Split(line + [NEWLINE] + tail) == [line] + Split(tail)
  {
    if line == "" {
      assert ([NEWLINE] + tail)[1..] == tail;
      assert [""] + Split(tail) == [line] + Split(tail);
      assert line + [NEWLINE] + tail == [NEWLINE] + tail;
    } else {
      SplitFirst(line[1..], tail);
      var s := line + [NEWLINE] + tail;
      assert s[1..] == line[1..] + [NEWLINE] + tail;
      var rest := Split(s[1..]);
      assert rest[0] == line[1..] && rest[1..] == Split(tail);
      assert [line[0]] + rest[0] == line;
    }
  }

  /** A line ends at the first line feed. */
  lemma FirstLine(line: string, tail: string)
    requires '\n' !in line
    ensures Split(line) == [line] && Split(line + "\n" + tail) == [line] + Split(tail)
  {
    SplitLine(line);
    SplitFirst(line, tail);
    assert "\n" == [NEWLINE];
  }

  /** Lines that contain no newline come back from joining, unless there are none at all: an empty file
      still counts as one empty line. */
  lemma {:induction false} SplitUndoesJoin(lines: seq<string>)
    requires forall i :: 0 <= i < |lines| ==> NEWLINE !in lines[i]
    ensures Split(Join(lines)) == if lines == [] then [""] else lines
  {
    if |lines| == 1 {
      SplitLine(lines[0]);
    } else if |lines| > 1 {
      SplitUndoesJoin(lines[1..]);
      SplitFirst(lines[0], Join(lines[1..]));
    }
  }

  // ---- one line ----

  predicate IsSpace(c: char) {
    var n := c as int;
    || 0x09 <= n <= 0x0d || n == 0x20 || n == 0x85 || n == 0xa0 || n == 0x1680
    || 0x2000 <= n <= 0x200a || n == 0x2028 || n == 0x2029 || n == 0x202f || n == 0x205f || n == 0x3000
  }

  /** Where the spaces at the front end. */
  function FrontEnd(s: string): (k: nat)
    ensures k <= |s| && (forall i :: 0 <= i < k ==> IsSpace(s[i])) && (k < |s| ==> !IsSpace(s[k]))
  {
    if s == "" || !IsSpace(s[0]) then 0 else FrontEnd(s[1..]) + 1
  }

  /** Where the spaces at the back begin. */
  function BackStart(s: string): (k: nat)
    ensures k <= |s| && (forall i :: k <= i < |s| ==> IsSpace(s[i])) && (k > 0 ==> !IsSpace(s[k - 1]))
  {
    if s == "" || !IsSpace(s[|s| - 1]) then |s| else BackStart(s[..|s| - 1])
  }

  function TrimSpace(s: string): string {
    var t := s[FrontEnd(s)..];
    t[..BackStart(t)]
  }

  /** Position of the first colon. */
  function Colon(s: string): (k: nat)
    ensures k <= |s| && ':' !in s[..k] && (k < |s| ==> s[k] == ':')
  {
    if s == "" || s[0] == ':' then 0 else Colon(s[1..]) + 1
  }

  datatype Line = Comment | Entry(user: string, hash: string) | Malformed

  /** How the broker reads a line. */
  function Parse(line: string): Line {
    var trimmed := TrimSpace(line);
    if trimmed == "" || trimmed[0] == '#' then Comment
    else
      var k := Colon(trimmed);
      if k < |trimmed| then Entry(trimmed[..k], trimmed[k + 1..]) else Malformed
  }

  /** Spaces around a line do not count. */
  lemma TrimSpaceOf(front: string, text: string, back: string)
    requires AllSpace(front) && AllSpace(back)
    requires text != "" ==> !IsSpace(text[0]) && !IsSpace(text[|text| - 1])
    ensures TrimSpace(front + text + back) == text
  {
    var s := front + text + back;
    var k := FrontEnd(s);
    if text == "" {
      assert forall i :: 0 <= i < |s| ==> IsSpace(s[i]);
      assert s[k..] == "";
    } else {
      assert s[|front|] == text[0];
      assert k == |front|;
      var t := s[k..];
      assert t == text + back && t[|text| - 1] == text[|text| - 1];
      assert BackStart(t) == |text|;
    }
  }

  ghost predicate AllSpace(s: string) {
    forall i :: 0 <= i < |s| ==> s[i] in {' ', '\t', '\r'}
  }

  lemma {:induction false} ColonAt(user: string, hash: string)
    requires ':' !in user
    ensures Colon(user + ":" + hash) == |user| && Colon(user) == |user|
  {
    if user != "" {
      ColonAt(user[1..], hash);
      assert (user + ":" + hash)[1..] == user[1..] + ":" + hash;
    }
  }

  /** How lines are read, with any spaces around them: nothing and a number sign make a comment, the first
      colon ends the user's name, and a line without a colon is malformed. */
  lemma LinesRead(front: string, text: string, back: string, user: string, hash: string)
    requires AllSpace(front) && AllSpace(back) && ':' !in user
    requires text != "" ==> !IsSpace(text[0]) && !IsSpace(text[|text| - 1])
    ensures var line := Parse(front + text + back);
      && (text == "" || text[0] == '#' ==> line == Comment)
      && (text != "" && text[0] != '#' && text == user ==> line == Malformed)
      && (text != "" && text[0] != '#' && text == user + ":" + hash ==> line == Entry(user, hash))
    ensures forall c: char :: c as int < 0x80 ==> (IsSpace(c) <==> c == ' ' || '\t' <= c <= '\r')
  {
    hide TrimSpace, Colon;
    TrimSpaceOf(front, text, back);
    ColonAt(user, hash);
    var s := user + ":" + hash;
    assert s[..|user|] == user && s[|user| + 1..] == hash;
  }

  // ---- the file ----

  /** Comments, blank lines and other users' entries stay; malformed lines go with the user's. */
  predicate Keeps(line: string, username: string) {
    match Parse(line)
    case Comment => true
    case Entry(user, _) => user != username
    case Malformed => false
  }

  function Kept(lines: seq<string>, username: string): (kept: seq<string>)
    ensures forall i :: 0 <= i < |kept| ==> kept[i] in lines && Keeps(kept[i], username)
  {
    if lines == [] then []
    else
      var last := lines[|lines| - 1];
      Kept(lines[..|lines| - 1], username) + (if Keeps(last, username) then [last] else [])
  }

  function Removed(data: string, username: string): string {
    Join(Kept(Split(data), username))
  }

  lemma KeepsMeans(line: string, username: string)
    ensures var trimmed := TrimSpace(line);
      Keeps(line, username) <==>
        || trimmed == "" || trimmed[0] == '#'
        || (Colon(trimmed) < |trimmed| && trimmed[..Colon(trimmed)] != username)
  {
    hide TrimSpace, Colon;
  }

  lemma KeptNothing(username: string)
    ensures Kept([], username) == []
  {
  }

  lemma KeptNext(lines: seq<string>, i: nat, username: string)
    requires i < |lines|
    ensures Kept(lines[..i + 1], username)
         == if Keeps(lines[i], username) then Kept(lines[..i], username) + [lines[i]] else Kept(lines[..i], username)
  {
    hide Keeps;
    assert lines[..i + 1][..i] == lines[..i];
  }

  class PasswordFile {
    var data: string

    method RemoveDeviceUser(username: string)
      modifies this
      ensures data == Removed(old(data), username)
    {
      hide Keeps, TrimSpace, Colon, Split, Join, Kept;
      var lines := Split(data);
      KeptNothing(username);
      var filtered: seq<string> := [];
      for i := 0 to |lines|
        invariant filtered == Kept(lines[..i], username)
      {
        KeptNext(lines, i, username);
        KeepsMeans(lines[i], username);
        var trimmed := TrimSpace(lines[i]);
        if trimmed == "" || trimmed[0] == '#' {
          filtered := filtered + [lines[i]];
          continue;
        }
        var k := Colon(trimmed);
        if k < |trimmed| && trimmed[..k] != username {
          filtered := filtered + [lines[i]];
        }
      }
      assert lines[..|lines|] == lines;
      data := Join(filtered);
    }
  }

  /** The entries of the file, in order: what the broker authenticates against. */
  function Entries(lines: seq<string>): seq<Line> {
    if lines == [] then []
    else
      var last := Parse(lines[|lines| - 1]);
      Entries(lines[..|lines| - 1]) + (if last.Entry? then [last] else [])
  }

  function Without(entries: seq<Line>, username: string): seq<Line> {
    if entries == [] then []
    else
      var last := entries[|entries| - 1];
      Without(entries[..|entries| - 1], username) + (if last.Entry? && last.user == username then [] else [last])
  }

  /** The lines the broker ignores but people read. */
  function Comments(lines: seq<string>): seq<string> {
    if lines == [] then []
    else
      var last := lines[|lines| - 1];
      Comments(lines[..|lines| - 1]) + (if Parse(last) == Comment then [last] else [])
  }

  lemma Snoc(lines: seq<string>, x: string)
    ensures Entries(lines + [x]) == if Parse(x).Entry? then Entries(lines) + [Parse(x)] else Entries(lines)
    ensures Comments(lines + [x]) == if Parse(x) == Comment then Comments(lines) + [x] else Comments(lines)
  {
    assert (lines + [x])[..|lines + [x]| - 1] == lines;
  }

  lemma WithoutSnoc(entries: seq<Line>, e: Line, username: string)
    ensures Without(entries + [e], username)
         == if e.Entry? && e.user == username then Without(entries, username) else Without(entries, username) + [e]
  {
    assert (entries + [e])[..|entries + [e]| - 1] == entries;
  }

  lemma {:induction false} KeptEntries(lines: seq<string>, username: string)
    ensures Entries(Kept(lines, username)) == Without(Entries(lines), username)
    ensures Comments(Kept(lines, username)) == Comments(lines)
  {
    hide Parse, Split;
    if lines == [] {
      assert Kept(lines, username) == [];
    } else {
      hide Without, Entries, Comments, Kept;
      var front, last := lines[..|lines| - 1], lines[|lines| - 1];
      KeptEntries(front, username);
      KeptNext(lines, |lines| - 1, username);
      assert lines == front + [last] == lines[..|lines|];
      Snoc(front, last);
      WithoutSnoc(Entries(front), Parse(last), username);
      if Keeps(last, username) {
        Snoc(Kept(front, username), last);
      } else {
        assert Kept(lines, username) == Kept(front, username);
      }
    }
  }

  /** The lines of the new file are the kept lines, or one empty line when none is kept. */
  lemma {:induction false} LinesOfRemoved(data: string, username: string)
    ensures var kept := Kept(Split(data), username);
      Split(Removed(data, username)) == if kept == [] then [""] else kept
  {
    SplitUndoesJoin(Kept(Split(data), username));
  }

  lemma EmptyLine()
    ensures Parse("") == Comment
    ensures forall username :: Keeps("", username)
  {
  }

  /** The broker sees the old entries without the removed user's, in the old order. */
  lemma {:induction false} RemovesExactlyTheUser(data: string, username: string)
    ensures Entries(Split(Removed(data, username))) == Without(Entries(Split(data)), username)
  {
    hide Parse, Removed;
    KeptEntries(Split(data), username);
    LinesOfRemoved(data, username);
    EmptyLine();
    NoEntries();
  }

  /** Comments and blank lines stay, in order; a file left without any line reads as one blank line. */
  lemma {:induction false} CommentsStay(data: string, username: string)
    ensures Comments(Split(Removed(data, username)))
         == if Kept(Split(data), username) == [] then [""] else Comments(Split(data))
  {
    hide Parse, Removed;
    KeptEntries(Split(data), username);
    LinesOfRemoved(data, username);
    EmptyLine();
    NoEntries();
  }

  /** A file of one blank line. */
  lemma NoEntries()
    ensures Entries([]) == Entries([""]) == [] && Comments([""]) == [""]
  {
    hide Parse;
    EmptyLine();
    assert [""][..0] == [];
  }

  lemma {:induction false} AllKept(lines: seq<string>, username: string)
    requires forall i :: 0 <= i < |lines| ==> Keeps(lines[i], username)
    ensures Kept(lines, username) == lines
  {
    if lines != [] {
      AllKept(lines[..|lines| - 1], username);
    }
  }

  lemma {:induction false} KeptShorter(lines: seq<string>, username: string)
    ensures |Kept(lines, username)| <= |lines|
    ensures |Kept(lines, username)| == |lines| ==> forall i :: 0 <= i < |lines| ==> Keeps(lines[i], username)
  {
    if lines != [] {
      KeptShorter(lines[..|lines| - 1], username);
    }
  }

  /** Removing twice is removing once. */
  lemma RemoveIsIdempotent(data: string, username: string)
    ensures Removed(Removed(data, username), username) == Removed(data, username)
  {
    hide Keeps;
    var kept := Kept(Split(data), username);
    LinesOfRemoved(data, username);
    EmptyLine();
    AllKept(Split(Removed(data, username)), username);
    JoinUndoesSplit(Removed(data, username));
  }

  /** The file is left as it is exactly when it has no malformed line and no entry of the user. */
  lemma UnchangedIff(data: string, username: string)
    ensures Removed(data, username) == data <==>
      forall i :: 0 <= i < |Split(data)| ==>
        var line := Parse(Split(data)[i]);
        line != Malformed && !(line.Entry? && line.user == username)
  {
    KeepsAll(Split(data), username);
    UnchangedIfKept(data, username);
  }

  lemma KeepsAll(lines: seq<string>, username: string)
    ensures (forall i :: 0 <= i < |lines| ==> Keeps(lines[i], username)) <==>
      forall i :: 0 <= i < |lines| ==>
        var line := Parse(lines[i]);
        line != Malformed && !(line.Entry? && line.user == username)
  {
    hide Parse;
    assert forall i :: 0 <= i < |lines| ==> (Keeps(lines[i], username) <==>
      Parse(lines[i]) != Malformed && !(Parse(lines[i]).Entry? && Parse(lines[i]).user == username));
  }

  lemma {:induction false} UnchangedIfKept(data: string, username: string)
    ensures Removed(data, username) == data <==>
      forall i :: 0 <= i < |Split(data)| ==> Keeps(Split(data)[i], username)
  {
    hide Keeps;
    var lines := Split(data);
    JoinUndoesSplit(data);
    if forall i :: 0 <= i < |lines| ==> Keeps(lines[i], username) {
      AllKept(lines, username);
    } else if Removed(data, username) == data {
      LinesOfRemoved(data, username);
      KeptShorter(lines, username);
      EmptyLine();
      assert false;
    }
  }
}
