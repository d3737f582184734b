/** Rendering of message templates by repeated textual replacement. */
module Template {

  predicate Prefix(p: string, s: string) {
    |p| <= |s| && s[..|p|] == p
  }

  /** `p` occurs in `s` at `i`. */
  predicate OccursAt(p: string, s: string, i: nat) {
    i <= |s| && Prefix(p, s[i..])
  }

  // ---- leftmost, non-overlapping replacement ----

  function Replace(s: string, old_: string, new_: string): string
    requires |old_| > 0
  {
    if |s| < |old_| then s
    else if Prefix(old_, s) then new_ + Replace(s[|old_|..], old_, new_)
    else [s[0]] + Replace(s[1..], old_, new_)
  }

  /** The pieces joined by `sep`. */
  function Join(pieces: seq<string>, sep: string): string
    requires pieces != []
  {
    if |pieces| == 1 then pieces[0] else pieces[0] + sep + Join(pieces[1..], sep)
  }

  /** `p` occurs nowhere in `s`. */
  predicate Avoids(p: string, s: string) {
    forall i :: 0 <= i <= |s| ==> !OccursAt(p, s, i)
  }

  /** In `piece` followed by `sep` the separator occurs no earlier than after the piece. */
  ghost predicate EndsAtFirst(sep: string, piece: string) {
    forall i :: 0 <= i < |piece| ==> !OccursAt(sep, piece + sep, i)
  }

  /** `pieces` are what lies between the leftmost non-overlapping occurrences of `sep`: no piece
      followed by the separator contains an earlier occurrence, and the last piece contains none. */
  ghost predicate LeftmostPieces(pieces: seq<string>, sep: string) {
    && pieces != []
    && (forall k :: 0 <= k < |pieces| - 1 ==> EndsAtFirst(sep, pieces[k]))
    && Avoids(sep, pieces[|pieces| - 1])
  }

  /** The replacement is exactly: cut at the leftmost non-overlapping occurrences, rejoin with the new
      text. */
  lemma {:induction false} ReplaceIsLeftmost(s: string, old_: string, new_: string) returns (pieces: seq<string>)
    requires |old_| > 0
    ensures LeftmostPieces(pieces, old_)
    ensures s == Join(pieces, old_) && Replace(s, old_, new_) == Join(pieces, new_)
  {
    hide EndsAtFirst, Avoids, Join, LeftmostPieces;
    if |s| < |old_| {
      pieces := [s];
      ShortIsOnePiece(s, old_, new_);
    } else if Prefix(old_, s) {
      var rest := ReplaceIsLeftmost(s[|old_|..], old_, new_);
      pieces := [""] + rest;
      NotEmpty(rest, old_);
      EmptyPieceFirst(rest, old_, new_);
      assert s == old_ + s[|old_|..];
    } else {
      var rest := ReplaceIsLeftmost(s[1..], old_, new_);
      NotEmpty(rest, old_);
      pieces := [[s[0]] + rest[0]] + rest[1..];
      assert s == [s[0]] + s[1..];
      GrowFirst(s[0], rest, old_, new_);
      LongerPieces(s, rest, old_);
    }
  }

  lemma NotEmpty(pieces: seq<string>, sep: string)
    requires LeftmostPieces(pieces, sep)
    ensures pieces != []
  {
  }

  lemma ShortIsOnePiece(s: string, old_: string, new_: string)
    requires |s| < |old_|
    ensures LeftmostPieces([s], old_) && s == Join([s], old_) && Replace(s, old_, new_) == Join([s], new_)
  {
  }

  lemma EmptyPieceFirst(rest: seq<string>, old_: string, new_: string)
    requires LeftmostPieces(rest, old_) && rest != []
    ensures var pieces := [""] + rest;
      && LeftmostPieces(pieces, old_)
      && Join(pieces, old_) == old_ + Join(rest, old_) && Join(pieces, new_) == new_ + Join(rest, new_)
  {
    var pieces := [""] + rest;
    assert pieces[1..] == rest && pieces[0] == "";
    JoinEmptyFirst(pieces, old_);
    JoinEmptyFirst(pieces, new_);
    EmptyEndsAtFirst(old_);
    hide EndsAtFirst, Avoids, Join;
    assert forall k :: 0 < k < |pieces| ==> pieces[k] == rest[k - 1];
  }

  lemma EmptyEndsAtFirst(sep: string)
    ensures EndsAtFirst(sep, "")
  {
  }

  lemma JoinEmptyFirst(pieces: seq<string>, sep: string)
    requires |pieces| > 1 && pieces[0] == ""
    ensures Join(pieces, sep) == sep + Join(pieces[1..], sep)
  {
    assert "" + sep == sep;
  }

  /** One more character before the first piece, where no occurrence starts. */
  lemma {:induction false} LongerPieces(s: string, rest: seq<string>, sep: string)
    requires |sep| > 0 && s != "" && LeftmostPieces(rest, sep) && s[1..] == Join(rest, sep) && !Prefix(sep, s)
    ensures LeftmostPieces([[s[0]] + rest[0]] + rest[1..], sep)
  {
    var pieces := [[s[0]] + rest[0]] + rest[1..];
    if |rest| == 1 {
      assert pieces[0] == s;
      AvoidsLonger(sep, s, rest[0]);
    } else {
      FirstStart(s, rest, sep);
      EndsLonger(s[0], rest[0], sep);
      OtherFirst([s[0]] + rest[0], rest, sep);
    }
  }

  lemma OtherFirst(first: string, rest: seq<string>, sep: string)
    requires |rest| > 1 && LeftmostPieces(rest, sep) && EndsAtFirst(sep, first)
    ensures LeftmostPieces([first] + rest[1..], sep)
  {
    var pieces := [first] + rest[1..];
    assert forall k :: 0 < k < |pieces| ==> pieces[k] == rest[k];
  }

  lemma EndsLonger(c: char, tail: string, sep: string)
    requires EndsAtFirst(sep, tail) && !OccursAt(sep, [c] + tail + sep, 0)
    ensures EndsAtFirst(sep, [c] + tail)
  {
    forall i | 0 <= i < |[c] + tail| ensures !OccursAt(sep, [c] + tail + sep, i) {
      if i > 0 {
        assert ([c] + tail + sep)[i..] == (tail + sep)[i - 1..];
        assert !OccursAt(sep, tail + sep, i - 1);
      }
    }
  }

  lemma AvoidsLonger(p: string, s: string, tail: string)
    requires s != "" && s[1..] == tail && Avoids(p, tail) && !Prefix(p, s)
    ensures Avoids(p, s)
  {
    forall i | 0 <= i <= |s| ensures !OccursAt(p, s, i) {
      if i > 0 {
        assert s[i..] == tail[i - 1..];
        assert !OccursAt(p, tail, i - 1);
      } else {
        assert s[0..] == s;
      }
    }
  }

  lemma GrowFirst(c: char, rest: seq<string>, old_: string, new_: string)
    requires rest != []
    ensures var pieces := [[c] + rest[0]] + rest[1..];
      && Join(pieces, old_) == [c] + Join(rest, old_) && Join(pieces, new_) == [c] + Join(rest, new_)
  {
    var pieces := [[c] + rest[0]] + rest[1..];
    assert pieces[1..] == rest[1..];
    if |rest| > 1 {
      assert ([c] + rest[0]) + old_ + Join(rest[1..], old_) == [c] + (rest[0] + old_ + Join(rest[1..], old_));
      assert ([c] + rest[0]) + new_ + Join(rest[1..], new_) == [c] + (rest[0] + new_ + Join(rest[1..], new_));
    }
  }

  /** An occurrence at the start of the first piece and the separator after it would be one in `s`. */
  lemma FirstStart(s: string, rest: seq<string>, old_: string)
    requires |s| > 0 && |rest| > 1 && s[1..] == Join(rest, old_) && !Prefix(old_, s)
    ensures !OccursAt(old_, [s[0]] + rest[0] + old_, 0)
  {
    var lead := [s[0]] + rest[0] + old_;
    assert s == lead + Join(rest[1..], old_);
    assert lead[0..] == lead;
    assert |old_| <= |lead| ==> s[..|old_|] == lead[..|old_|];
  }

  lemma SeparatorAfterFirst(p: seq<string>, sep: string)
    requires |p| > 1
    ensures OccursAt(sep, Join(p, sep), |p[0]|)
    ensures Join(p, sep)[..|p[0]| + |sep|] == p[0] + sep
    ensures Join(p, sep)[|p[0]| + |sep|..] == Join(p[1..], sep)
  {
    var s := Join(p, sep);
    assert s == p[0] + sep + Join(p[1..], sep);
    assert s[|p[0]|..][..|sep|] == sep;
  }

  lemma NoOccurrenceInside(piece: string, sep: string, s: string, i: nat)
    requires EndsAtFirst(sep, piece) && Prefix(piece + sep, s) && OccursAt(sep, s, i)
    ensures |piece| <= i
  {
    var head := piece + sep;
    assert i < |piece| ==> head[i..][..|sep|] == s[..|head|][i..][..|sep|] == s[i..][..|sep|];
    assert i < |piece| ==> !OccursAt(sep, head, i);
  }

  lemma {:induction false} FirstPieceNotEarlier(p: seq<string>, q: seq<string>, sep: string)
    requires |sep| > 0 && LeftmostPieces(p, sep) && LeftmostPieces(q, sep) && Join(p, sep) == Join(q, sep)
    requires |p| > 1
    ensures |q| > 1 && |q[0]| <= |p[0]|
  {
    SeparatorAfterFirst(p, sep);
    var last := q[|q| - 1];
    assert |p[0]| <= |last| ==> !OccursAt(sep, last, |p[0]|);
    SeparatorAfterFirst(q, sep);
    NoOccurrenceInside(q[0], sep, Join(p, sep), |p[0]|);
  }

  /** There is only one way to cut a text at the leftmost non-overlapping occurrences, so the cut
      determines the replacement's result. */
  lemma {:induction false} PiecesAreUnique(p: seq<string>, q: seq<string>, sep: string)
    requires |sep| > 0 && LeftmostPieces(p, sep) && LeftmostPieces(q, sep) && Join(p, sep) == Join(q, sep)
    ensures p == q
  {
    if |q| > 1 {
      FirstPieceNotEarlier(q, p, sep);
    }
    if |p| > 1 {
      FirstPieceNotEarlier(p, q, sep);
      SeparatorAfterFirst(p, sep);
      SeparatorAfterFirst(q, sep);
      assert p[0] == (p[0] + sep)[..|p[0]|] && q[0] == (q[0] + sep)[..|q[0]|];
      TailPieces(p, sep);
      TailPieces(q, sep);
      PiecesAreUnique(p[1..], q[1..], sep);
      assert p == [p[0]] + p[1..] && q == [q[0]] + q[1..];
    }
  }

  lemma TailPieces(p: seq<string>, sep: string)
    requires |p| > 1 && LeftmostPieces(p, sep)
    ensures LeftmostPieces(p[1..], sep)
  {
    assert forall k :: 0 <= k < |p| - 1 ==> p[1..][k] == p[k + 1];
  }

  lemma ReplaceHit(s: string, old_: string, new_: string)
    requires 0 < |old_| <= |s| && s[..|old_|] == old_
    ensures Replace(s, old_, new_) == new_ + Replace(s[|old_|..], old_, new_)
  {
  }

  lemma ReplaceMiss(s: string, old_: string, new_: string)
    requires 0 < |old_| <= |s| && s[..|old_|] != old_
    ensures Replace(s, old_, new_) == [s[0]] + Replace(s[1..], old_, new_)
  {
  }

  /** The hand-written loop. It copies one character or one replacement at a time; with an empty pattern
      it would match for ever without moving, so the pattern must not be empty. */
  method ReplaceAll(s: string, old_: string, new_: string) returns (r: string)
    requires |old_| > 0
    ensures r == Replace(s, old_, new_)
    ensures exists pieces :: LeftmostPieces(pieces, old_) && s == Join(pieces, old_) && r == Join(pieces, new_)
  {
    hide Replace, Prefix;
    r := [];
    var i := 0;
    var j := 0;
    assert s[0..] == s;
    while j <= |s| - |old_|
      invariant 0 <= i == j <= |s|
      invariant r + Replace(s[j..], old_, new_) == Replace(s, old_, new_)
      decreases |s| - j
    {
      ghost var rest := s[j..];
      if s[j..j + |old_|] == old_ {
        ReplaceHit(rest, old_, new_);
        assert rest[|old_|..] == s[j + |old_|..];
        assert r + (new_ + Replace(s[j + |old_|..], old_, new_)) == (r + new_) + Replace(s[j + |old_|..], old_, new_);
        r := r + new_;
        j := j + |old_|;
        i := j;
      } else {
        assert rest[..|old_|] == s[j..j + |old_|];
        ReplaceMiss(rest, old_, new_);
        assert rest[1..] == s[j + 1..];
        assert rest[0] == s[j];
        assert r + ([s[j]] + Replace(rest[1..], old_, new_)) == (r + [s[j]]) + Replace(rest[1..], old_, new_);
        r := r + [s[j]];
        j := j + 1;
        i := j;
      }
    }
    ShortStays(s[j..], old_, new_);
    r := r + s[i..];
    ghost var pieces := ReplaceIsLeftmost(s, old_, new_);
  }

  // ---- templates as token lists ----

  datatype Token = Literal(text: string) | Variable(name: string)

  predicate BraceFree(s: string) {
    '{' !in s && '}' !in s
  }

  predicate WellFormed(tokens: seq<Token>) {
    forall i :: 0 <= i < |tokens| ==> BraceFree(if tokens[i].Literal? then tokens[i].text else tokens[i].name)
  }

  function Placeholder(name: string): string {
    "{{" + name + "}}"
  }

  function TokenText(t: Token): string {
    match t case Literal(text) => text case Variable(name) => Placeholder(name)
  }

  /** The body a token list is written as. */
  function Flatten(tokens: seq<Token>): string {
    if tokens == [] then "" else TokenText(tokens[0]) + Flatten(tokens[1..])
  }

  function SubstituteToken(t: Token, vars: map<string, string>): Token {
    if t.Variable? && t.name in vars then Literal(vars[t.name]) else t
  }

  /** All variables replaced at once; a variable without a value stays as it is. */
  function Substitute(tokens: seq<Token>, vars: map<string, string>): seq<Token> {
    if tokens == [] then [] else [SubstituteToken(tokens[0], vars)] + Substitute(tokens[1..], vars)
  }

  // ---- one replacement on a flattened token list ----

  /** If the pattern occurs nowhere that starts inside `u`, the replacement copies `u`. */
  lemma {:induction false} CopyOver(u: string, rest: string, old_: string, new_: string)
    requires |old_| > 0
    requires forall i :: 0 <= i < |u| ==> !Prefix(old_, (u + rest)[i..])
    ensures Replace(u + rest, old_, new_) == u + Replace(rest, old_, new_)
  {
    var s := u + rest;
    if u == "" {
      assert s == rest;
    } else if |s| < |old_| {
      ShortStays(s, old_, new_);
      ShortStays(rest, old_, new_);
    } else {
      var v := u[1..];
      assert s[1..] == v + rest && s[0..] == s && u == [u[0]] + v;
      forall i | 0 <= i < |v| ensures !Prefix(old_, (v + rest)[i..]) {
        assert (v + rest)[i..] == s[i + 1..];
      }
      CopyOver(v, rest, old_, new_);
      assert !Prefix(old_, s[0..]);
    }
  }

  lemma ShortStays(s: string, old_: string, new_: string)
    requires |s| < |old_|
    ensures Replace(s, old_, new_) == s
  {
  }

  lemma Mismatch(p: string, s: string, j: nat)
    requires j < |p| && (j < |s| ==> s[j] != p[j])
    ensures !Prefix(p, s)
  {
    assert |p| <= |s| ==> s[..|p|][j] == s[j];
  }

  /** Inside a brace-free literal no placeholder starts. */
  lemma NoStartInLiteral(text: string, rest: string, key: string, i: nat)
    requires BraceFree(text) && i < |text|
    ensures !Prefix(Placeholder(key), (text + rest)[i..])
  {
    assert text[i] in text;
    Mismatch(Placeholder(key), (text + rest)[i..], 0);
  }

  lemma FirstDifference(a: string, b: string) returns (j: nat)
    requires a != b && |a| == |b|
    ensures j < |a| && a[j] != b[j]
  {
    j :| j < |a| && a[j] != b[j];
  }

  /** Two placeholders of different names differ before either ends. */
  lemma DifferAtStart(name: string, rest: string, key: string)
    requires BraceFree(name) && BraceFree(key) && name != key
    ensures !Prefix(Placeholder(key), Placeholder(name) + rest)
  {
    var p, s := Placeholder(key), Placeholder(name) + rest;
    if |key| < |name| {
      assert s[2 + |key|] == name[|key|] && name[|key|] in name;
      Mismatch(p, s, 2 + |key|);
    } else if |name| < |key| {
      assert p[2 + |name|] == key[|name|] && key[|name|] in key;
      Mismatch(p, s, 2 + |name|);
    } else {
      var j := FirstDifference(name, key);
      assert s[2 + j] == name[j] && p[2 + j] == key[j];
      Mismatch(p, s, 2 + j);
    }
  }

  /** Inside the placeholder of another name the key's placeholder does not start. */
  lemma NoStartInOther(name: string, rest: string, key: string, i: nat)
    requires BraceFree(name) && BraceFree(key) && name != key && i < |Placeholder(name)|
    ensures !Prefix(Placeholder(key), (Placeholder(name) + rest)[i..])
  {
    var q := Placeholder(name);
    var s := (q + rest)[i..];
    if i == 0 {
      assert s == q + rest;
      DifferAtStart(name, rest, key);
    } else if i == 1 {
      assert |name| > 0 ==> q[2] == name[0] && name[0] in name;
      Mismatch(Placeholder(key), s, 1);
    } else {
      assert i < 2 + |name| ==> q[i] == name[i - 2] && name[i - 2] in name;
      Mismatch(Placeholder(key), s, 0);
    }
  }

  /** Replacing one placeholder replaces that variable's tokens and no other text, whatever the value. */
  lemma {:induction false} ReplaceOnTokens(tokens: seq<Token>, key: string, value: string)
    requires WellFormed(tokens) && BraceFree(key)
    ensures Replace(Flatten(tokens), Placeholder(key), value) == Flatten(Substitute(tokens, map[key := value]))
    ensures BraceFree(value) ==> WellFormed(Substitute(tokens, map[key := value]))
  {
    if tokens != [] {
      var t, rest := tokens[0], Flatten(tokens[1..]);
      ReplaceOnTokens(tokens[1..], key, value);
      var sub := Substitute(tokens, map[key := value]);
      assert sub[1..] == Substitute(tokens[1..], map[key := value]);
      hide Replace;
      if t == Variable(key) {
        var s, p := Placeholder(key) + rest, Placeholder(key);
        assert s[..|p|] == p && s[|p|..] == rest;
        ReplaceHit(s, p, value);
        assert sub[0] == Literal(value);
      } else {
        forall i | 0 <= i < |TokenText(t)| ensures !Prefix(Placeholder(key), (TokenText(t) + rest)[i..]) {
          if t.Literal? {
            NoStartInLiteral(t.text, rest, key, i);
          } else {
            NoStartInOther(t.name, rest, key, i);
          }
        }
        CopyOver(TokenText(t), rest, Placeholder(key), value);
      }
    }
  }

  // ---- all replacements, in any order ----

  /** The body after replacing the keys in the given order. */
  function RenderInOrder(body: string, vars: map<string, string>, order: seq<string>): string
    requires forall i :: 0 <= i < |order| ==> order[i] in vars
  {
    if order == [] then body
    else
      var before := RenderInOrder(body, vars, order[..|order| - 1]);
      Replace(before, Placeholder(order[|order| - 1]), vars[order[|order| - 1]])
  }

  predicate BraceFreeMap(vars: map<string, string>) {
    forall key :: key in vars ==> BraceFree(key) && BraceFree(vars[key])
  }

  /** The variables among the first keys of an order. */
  function Restrict(vars: map<string, string>, order: seq<string>): map<string, string> {
    map key | key in vars && key in order :: vars[key]
  }

  lemma RestrictOneMore(vars: map<string, string>, before: seq<string>, key: string)
    requires key in vars
    ensures Restrict(vars, before + [key]) == Restrict(vars, before)[key := vars[key]]
  {
  }

  lemma {:induction false} SubstituteTwice(tokens: seq<Token>, first: map<string, string>, key: string, value: string)
    requires key in first ==> first[key] == value
    ensures Substitute(Substitute(tokens, first), map[key := value]) == Substitute(tokens, first[key := value])
  {
    if tokens != [] {
      SubstituteTwice(tokens[1..], first, key, value);
      var once := Substitute(tokens, first);
      assert once[1..] == Substitute(tokens[1..], first);
    }
  }

  lemma {:induction false} SubstituteNothing(tokens: seq<Token>)
    ensures Substitute(tokens, map[]) == tokens
  {
    if tokens != [] {
      SubstituteNothing(tokens[1..]);
    }
  }

  lemma {:induction false} OrderedIsSimultaneous(tokens: seq<Token>, vars: map<string, string>, order: seq<string>)
    requires WellFormed(tokens) && BraceFreeMap(vars)
    requires forall i :: 0 <= i < |order| ==> order[i] in vars
    ensures RenderInOrder(Flatten(tokens), vars, order) == Flatten(Substitute(tokens, Restrict(vars, order)))
    ensures WellFormed(Substitute(tokens, Restrict(vars, order)))
  {
    if order == [] {
      SubstituteNothing(tokens);
      assert Restrict(vars, order) == map[];
    } else {
      var before, key := order[..|order| - 1], order[|order| - 1];
      OrderedIsSimultaneous(tokens, vars, before);
      var done := Restrict(vars, before);
      RestrictOneMore(vars, before, key);
      assert order == before + [key];
      ReplaceOnTokens(Substitute(tokens, done), key, vars[key]);
      SubstituteTwice(tokens, done, key, vars[key]);
    }
  }

  ghost predicate IsOrderOf(order: seq<string>, vars: map<string, string>) {
    && (forall i :: 0 <= i < |order| ==> order[i] in vars)
    && (forall key :: key in vars ==> key in order)
    && (forall i, j :: 0 <= i < j < |order| ==> order[i] != order[j])
  }

  /** For a well-formed body and brace-free keys and values, rendering gives the same text for every
      iteration order of the map, and that text is the simultaneous substitution. */
  lemma RenderIsSimultaneous(tokens: seq<Token>, vars: map<string, string>, order: seq<string>)
    requires WellFormed(tokens) && BraceFreeMap(vars) && IsOrderOf(order, vars)
    ensures RenderInOrder(Flatten(tokens), vars, order) == Flatten(Substitute(tokens, vars))
  {
    OrderedIsSimultaneous(tokens, vars, order);
    assert Restrict(vars, order) == vars;
  }

  /** The Go map is iterated in an arbitrary order. */
  method RenderTemplate(body: string, variables: map<string, string>) returns (result: string)
    ensures exists order :: IsOrderOf(order, variables) && result == RenderInOrder(body, variables, order)
    ensures forall tokens :: WellFormed(tokens) && BraceFreeMap(variables) && Flatten(tokens) == body ==>
      result == Flatten(Substitute(tokens, variables))
  {
    result := body;
    var remaining := variables.Keys;
    ghost var order := [];
    while remaining != {}
      invariant remaining <= variables.Keys
      invariant forall i :: 0 <= i < |order| ==> order[i] in variables && order[i] !in remaining
      invariant forall key :: key in variables ==> key in remaining || key in order
      invariant forall i, j :: 0 <= i < j < |order| ==> order[i] != order[j]
      invariant result == RenderInOrder(body, variables, order)
      decreases |remaining|
    {
      var key :| key in remaining;
      result := ReplaceAll(result, Placeholder(key), variables[key]);
      remaining := remaining - {key};
      assert (order + [key])[..|order|] == order;
      order := order + [key];
    }
    forall tokens | WellFormed(tokens) && BraceFreeMap(variables) && Flatten(tokens) == body
      ensures result == Flatten(Substitute(tokens, variables))
    {
      RenderIsSimultaneous(tokens, variables, order);
    }
  }

  // ---- a placeholder on its own ----

  lemma ReplaceWhole(key: string, value: string)
    ensures Replace(Placeholder(key), Placeholder(key), value) == value
  {
    var p := Placeholder(key);
    assert p[..|p|] == p && p[|p|..] == "";
    ShortStays("", p, value);
    assert value + "" == value;
  }

  lemma UntouchedByOther(name: string, key: string, value: string)
    requires BraceFree(name) && BraceFree(key) && name != key
    ensures Replace(Placeholder(name), Placeholder(key), value) == Placeholder(name)
  {
    forall i | 0 <= i < |Placeholder(name)| ensures !Prefix(Placeholder(key), (Placeholder(name) + "")[i..]) {
      NoStartInOther(name, "", key, i);
    }
    CopyOver(Placeholder(name), "", Placeholder(key), value);
    ShortStays("", Placeholder(key), value);
    assert Placeholder(name) + "" == Placeholder(name);
  }
}
