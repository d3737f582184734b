/** What a caller can check before rendering with any values: at most four values, with a stretch of the
    name between the second and the third, must not make up a placeholder. */
module TemplateJoins {
  import opened Template
  import opened TemplateOrder
  import opened TemplateAnyValue

  /** The values other than that of `b`, and nothing. */
  function Pieces(vars: map<string, string>, b: string): set<string> {
    {""} + set key | key in vars && key != b :: vars[key]
  }

  /** Two pieces, the stretch of the name from `lo` to `hi` and two pieces hold the placeholder of `b`. */
  predicate Makes(b: string, v1: string, v2: string, lo: nat, hi: nat, v3: string, v4: string) {
    lo <= hi <= |b| && !Avoids(Placeholder(b), v1 + ((v2 + b[lo..hi] + v3) + v4))
  }

  predicate CanJoin(vars: map<string, string>, b: string) {
    exists v1, v2, v3, v4, lo, hi ::
      && v1 in Pieces(vars, b) && v2 in Pieces(vars, b) && v3 in Pieces(vars, b) && v4 in Pieces(vars, b)
      && 0 <= lo <= |b| && 0 <= hi <= |b| && Makes(b, v1, v2, lo, hi, v3, v4)
  }

  /** No placeholder of a variable that stands for something else can be put together. */
  predicate NothingJoins(vars: map<string, string>) {
    forall b :: b in vars && vars[b] != Placeholder(b) ==> !CanJoin(vars, b)
  }

  // ---- the shape of a placeholder ----

  lemma PlaceholderShape(b: string, k: nat)
    requires k < |Placeholder(b)|
    ensures |Placeholder(b)| == |b| + 4
    ensures k < 2 ==> Placeholder(b)[k] == '{'
    ensures 2 <= k < |b| + 2 ==> Placeholder(b)[k] == b[k - 2]
    ensures |b| + 2 <= k ==> Placeholder(b)[k] == '}'
  {
  }

  /** A stretch of a placeholder between its braces is a stretch of the name. */
  lemma InnerStretch(b: string, a: nat, e: nat)
    requires 2 <= a <= e <= |b| + 2
    ensures Placeholder(b)[a..e] == b[a - 2..e - 2]
  {
  }

  // ---- texts made of pieces and brace-free stretches ----

  predicate Fits(t: Token, vars: map<string, string>, b: string) {
    BraceFree(TokenText(t)) || TokenText(t) in Pieces(vars, b)
  }

  predicate AllFit(u: seq<Token>, vars: map<string, string>, b: string) {
    forall i :: 0 <= i < |u| ==> Fits(u[i], vars, b)
  }

  lemma BraceFits(t: Token, vars: map<string, string>, b: string, i: nat)
    requires Fits(t, vars, b) && i < |TokenText(t)| && (TokenText(t)[i] == '{' || TokenText(t)[i] == '}')
    ensures TokenText(t) in Pieces(vars, b)
  {
  }

  lemma ShortAvoids(p: string, s: string)
    requires |s| < |p|
    ensures Avoids(p, s)
  {
  }

  lemma FlattenEnds(u: seq<Token>)
    requires |u| >= 2
    ensures Flatten(u) == TokenText(u[0]) + Flatten(u[1..])
    ensures Flatten(u) == Flatten(u[..|u| - 1]) + TokenText(u[|u| - 1])
    ensures Flatten(u[1..]) == Flatten(u[1..|u| - 1]) + TokenText(u[|u| - 1])
    ensures Flatten(u[..|u| - 1]) == TokenText(u[0]) + Flatten(u[1..|u| - 1])
  {
    hide TokenText, Flatten;
    var n := |u| - 1;
    FlattenCons(u);
    FlattenCons(u[..n]);
    FlattenLast(u);
    FlattenLast(u[1..]);
    assert u[1..][..n - 1] == u[1..n];
    assert u[..n][1..] == u[1..n];
  }

  lemma FlattenNothing()
    ensures Flatten([]) == ""
  {
  }

  lemma FlattenLast(u: seq<Token>)
    requires u != []
    ensures Flatten(u) == Flatten(u[..|u| - 1]) + TokenText(u[|u| - 1])
  {
    hide TokenText, Flatten;
    var n := |u| - 1;
    assert u == u[..n] + [u[n]];
    FlattenConcat(u[..n], [u[n]]);
    FlattenCons([u[n]]);
    assert [u[n]][1..] == [] && TokenText(u[n]) + "" == TokenText(u[n]);
    FlattenNothing();
  }

  lemma StartsBehind(p: string, first: string, rest: string, i: nat)
    requires OccursAt(p, first + rest, i) && |first| <= i
    ensures !Avoids(p, rest)
  {
    assert (first + rest)[i..] == rest[i - |first|..];
    assert OccursAt(p, rest, i - |first|);
  }

  lemma EndsBefore(p: string, head: string, last: string, i: nat)
    requires OccursAt(p, head + last, i) && i + |p| <= |head|
    ensures !Avoids(p, head)
  {
    assert (head + last)[i..][..|p|] == head[i..][..|p|];
    assert OccursAt(p, head, i);
  }

  /** An occurrence that needs both ends of a text covers all between them. */
  lemma Straddle(p: string, first: string, mid: string, last: string) returns (a: nat, e: nat)
    requires !Avoids(p, first + (mid + last)) && Avoids(p, mid + last) && Avoids(p, first + mid)
    ensures 1 <= a <= e < |p| && a <= |first| && |p| - e <= |last|
    ensures first[|first| - a..] == p[..a] && mid == p[a..e] && last[..|p| - e] == p[e..]
  {
    var s := first + (mid + last);
    assert s == (first + mid) + last;
    var i :| 0 <= i <= |s| && OccursAt(p, s, i);
    if i >= |first| {
      StartsBehind(p, first, mid + last, i);
    } else if i + |p| <= |first| + |mid| {
      EndsBefore(p, first + mid, last, i);
    }
    a, e := |first| - i, |first| - i + |mid|;
    assert s[i..][..|p|] == p;
    assert s[i..] == first[i..] + (mid + last);
    assert first[i..] == s[i..][..a];
    assert mid == s[i..][a..e];
    assert last[..|p| - e] == s[i..][e..|p|];
  }

  /** Such an occurrence, from what lies at the ends and between them. */
  lemma Straddles(p: string, first: string, mid: string, last: string, a: nat, e: nat)
    requires 1 <= a <= e < |p| && a <= |first| && |p| - e <= |last|
    requires first[|first| - a..] == p[..a] && mid == p[a..e] && last[..|p| - e] == p[e..]
    ensures !Avoids(p, first + (mid + last))
  {
    var s, i := first + (mid + last), |first| - a;
    assert s[i..] == first[i..] + (mid + last);
    assert s[i..][..|p|] == p[..a] + (p[a..e] + p[e..]);
    assert OccursAt(p, s, i);
  }

  /** A stretch that starts behind the opening braces is a stretch of the name and one piece. */
  lemma {:induction false} TailSplit(u: seq<Token>, vars: map<string, string>, b: string, a: nat, e: nat)
    returns (lo: nat, hi: nat, v: string)
    requires AllFit(u, vars, b) && 2 <= a <= e < |Placeholder(b)| && Flatten(u) == Placeholder(b)[a..e]
    ensures lo <= hi <= |b| && v in Pieces(vars, b) && Placeholder(b)[a..e] == b[lo..hi] + v
  {
    hide Fits, Flatten, Placeholder, TokenText, Pieces;
    PlaceholderShape(b, e);
    NothingIsPiece(vars, b);
    if a == e {
      lo, hi, v := 0, 0, "";
    } else if e <= |b| + 2 {
      InnerStretch(b, a, e);
      lo, hi, v := a - 2, e - 2, "";
    } else {
      var n := |u| - 1;
      FlattenLast(u);
      v := TokenText(u[n]);
      if v == "" {
        assert Flatten(u) == Flatten(u[..n]);
        lo, hi, v := TailSplit(u[..n], vars, b, a, e);
      } else {
        LastPiece(Flatten(u[..n]), u[n], vars, b, a, e);
        lo, hi := a - 2, e - |v| - 2;
      }
    }
  }

  lemma NothingIsPiece(vars: map<string, string>, b: string)
    ensures "" in Pieces(vars, b) && Flatten([]) == ""
  {
  }

  lemma LastPiece(before: string, t: Token, vars: map<string, string>, b: string, a: nat, e: nat)
    requires Fits(t, vars, b) && TokenText(t) != "" && 2 <= a < e == |b| + 3
    requires |Placeholder(b)| == |b| + 4 && before + TokenText(t) == Placeholder(b)[a..e]
    ensures TokenText(t) in Pieces(vars, b) && a <= e - |TokenText(t)|
    ensures Placeholder(b)[a..e] == b[a - 2..e - |TokenText(t)| - 2] + TokenText(t)
  {
    hide Fits, Placeholder, TokenText, Pieces;
    var p, v := Placeholder(b), TokenText(t);
    PlaceholderShape(b, e - 1);
    assert p[a..e][e - a - 1] == p[e - 1];
    assert (before + v)[e - a - 1] == v[|v| - 1];
    BraceFits(t, vars, b, |v| - 1);
    assert p[a..e - |v|] == p[a..e][..e - a - |v|] == before;
    InnerStretch(b, a, e - |v|);
  }

  lemma FlattenFirst(u: seq<Token>)
    requires Flatten(u) != ""
    ensures u != [] && Flatten(u) == TokenText(u[0]) + Flatten(u[1..])
  {
  }

  lemma FirstPiece(t: Token, after: string, vars: map<string, string>, b: string, e: nat)
    requires Fits(t, vars, b) && TokenText(t) != "" && 1 < e < |Placeholder(b)|
    requires TokenText(t) + after == Placeholder(b)[1..e]
    ensures TokenText(t) in Pieces(vars, b) && 1 + |TokenText(t)| <= e
    ensures after == Placeholder(b)[1 + |TokenText(t)|..e]
    ensures Placeholder(b)[1..e] == TokenText(t) + Placeholder(b)[1 + |TokenText(t)|..e]
  {
    hide Fits, Placeholder, TokenText, Pieces;
    var p, v := Placeholder(b), TokenText(t);
    PlaceholderShape(b, 1);
    assert p[1..e][0] == p[1];
    assert (v + after)[0] == v[0];
    BraceFits(t, vars, b, 0);
    assert (v + after)[|v|..] == after;
    assert p[1..e][|v|..] == p[1 + |v|..e];
  }

  /** Any inner stretch is a piece, a stretch of the name and a piece. */
  lemma {:induction false} MidSplit(u: seq<Token>, vars: map<string, string>, b: string, a: nat, e: nat)
    returns (v2: string, lo: nat, hi: nat, v3: string)
    requires AllFit(u, vars, b) && 1 <= a <= e < |Placeholder(b)| && Flatten(u) == Placeholder(b)[a..e]
    ensures v2 in Pieces(vars, b) && v3 in Pieces(vars, b) && lo <= hi <= |b|
    ensures Placeholder(b)[a..e] == v2 + b[lo..hi] + v3
  {
    hide Fits, Flatten, Placeholder, TokenText, Pieces;
    PlaceholderShape(b, a);
    NothingIsPiece(vars, b);
    if a >= 2 || a == e {
      v2 := "";
      if a == e {
        lo, hi, v3 := 0, 0, "";
      } else {
        lo, hi, v3 := TailSplit(u, vars, b, a, e);
      }
    } else {
      FlattenFirst(u);
      v2 := TokenText(u[0]);
      if v2 == "" {
        assert Flatten(u) == Flatten(u[1..]);
        v2, lo, hi, v3 := MidSplit(u[1..], vars, b, a, e);
      } else {
        FirstPiece(u[0], Flatten(u[1..]), vars, b, e);
        lo, hi, v3 := TailSplit(u[1..], vars, b, a + |v2|, e);
      }
    }
  }

  /** A text of fitting tokens that holds the placeholder shows that four pieces make it. */
  lemma {:induction false} Reduce(u: seq<Token>, vars: map<string, string>, b: string)
    requires AllFit(u, vars, b) && !Avoids(Placeholder(b), Flatten(u))
    ensures CanJoin(vars, b)
    decreases |u|
  {
    hide Fits, CanJoin, Avoids, Flatten, Placeholder;
    NotEmpty(u, b);
    if |u| == 1 {
      OneToken(u, vars, b);
    } else if !Avoids(Placeholder(b), Flatten(u[1..])) {
      Reduce(u[1..], vars, b);
    } else if !Avoids(Placeholder(b), Flatten(u[..|u| - 1])) {
      Reduce(u[..|u| - 1], vars, b);
    } else {
      FlattenEnds(u);
      AcrossTokens(u[0], u[1..|u| - 1], u[|u| - 1], vars, b);
    }
  }

  lemma NotEmpty(u: seq<Token>, b: string)
    requires !Avoids(Placeholder(b), Flatten(u))
    ensures u != []
  {
    if u == [] {
      ShortAvoids(Placeholder(b), "");
    }
  }

  lemma Joined(vars: map<string, string>, b: string, v1: string, v2: string, lo: nat, hi: nat, v3: string, v4: string)
    requires v1 in Pieces(vars, b) && v2 in Pieces(vars, b) && v3 in Pieces(vars, b) && v4 in Pieces(vars, b)
    requires Makes(b, v1, v2, lo, hi, v3, v4)
    ensures CanJoin(vars, b)
  {
  }

  lemma OneToken(u: seq<Token>, vars: map<string, string>, b: string)
    requires |u| == 1 && Fits(u[0], vars, b) && !Avoids(Placeholder(b), Flatten(u))
    ensures CanJoin(vars, b)
  {
    var v := TokenText(u[0]);
    assert Flatten(u) == v + "" == v;
    var i :| 0 <= i <= |v| && OccursAt(Placeholder(b), v, i);
    PlaceholderShape(b, 0);
    assert v[i] == v[i..][0] == v[i..][..|Placeholder(b)|][0];
    BraceFits(u[0], vars, b, i);
    assert v + (("" + b[0..0] + "") + "") == v;
    Joined(vars, b, v, "", 0, 0, "", "");
  }

  lemma AcrossTokens(x: Token, mid: seq<Token>, y: Token, vars: map<string, string>, b: string)
    requires Fits(x, vars, b) && AllFit(mid, vars, b) && Fits(y, vars, b)
    requires !Avoids(Placeholder(b), TokenText(x) + (Flatten(mid) + TokenText(y)))
    requires Avoids(Placeholder(b), Flatten(mid) + TokenText(y))
    requires Avoids(Placeholder(b), TokenText(x) + Flatten(mid))
    ensures CanJoin(vars, b)
  {
    hide Avoids, CanJoin, Flatten, Fits, AllFit;
    var p, first, last := Placeholder(b), TokenText(x), TokenText(y);
    var a, e := Straddle(p, first, Flatten(mid), last);
    PlaceholderShape(b, 0);
    PlaceholderShape(b, |p| - 1);
    assert first[|first| - a..][0] == p[..a][0];
    assert last[..|p| - e][|p| - e - 1] == p[e..][|p| - e - 1];
    BraceFits(x, vars, b, |first| - a);
    BraceFits(y, vars, b, |p| - e - 1);
    var v2, lo, hi, v3 := MidSplit(mid, vars, b, a, e);
    Straddles(p, first, v2 + b[lo..hi] + v3, last, a, e);
    Joined(vars, b, first, v2, lo, hi, v3, last);
  }

  // ---- variables without a value ----

  /** A text whose replaced variables hold the placeholder of `b` holds it between two variables that have
      no value, and there its tokens fit. */
  lemma {:induction false} FormedJoins(w: seq<Token>, vars: map<string, string>, b: string)
    requires WellFormed(w) && b in vars && BraceFree(b) && Variable(b) !in w
    requires !Avoids(Placeholder(b), Flatten(Substitute(w, vars)))
    ensures CanJoin(vars, b)
    decreases |w|
  {
    hide Avoids, CanJoin, Flatten, Placeholder, FirstUndone, Substitute;
    var k := FirstUndone(w, vars);
    var run := w[..k];
    RunFits(run, vars, b);
    if !Avoids(Placeholder(b), Flatten(Substitute(run, vars))) {
      Reduce(Substitute(run, vars), vars, b);
    } else {
      assert k == |w| ==> run == w;
      var rest := w[k + 1..];
      SubstituteAround(w, k, vars);
      HoldsBehind(Flatten(Substitute(run, vars)), w[k].name, Flatten(Substitute(rest, vars)), b);
      FormedJoins(rest, vars, b);
    }
  }

  lemma {:induction false} RunFits(run: seq<Token>, vars: map<string, string>, b: string)
    requires WellFormed(run) && Variable(b) !in run && forall i :: 0 <= i < |run| ==> !Undone(run[i], vars)
    ensures AllFit(Substitute(run, vars), vars, b)
  {
    if run != [] {
      RunFits(run[1..], vars, b);
      assert run[0] in run;
    }
  }

  /** An occurrence does not touch another variable's placeholder. */
  lemma HoldsBehind(run: string, q: string, rest: string, b: string)
    requires BraceFree(q) && BraceFree(b) && q != b && Avoids(Placeholder(b), run)
    requires !Avoids(Placeholder(b), run + (Placeholder(q) + rest))
    ensures !Avoids(Placeholder(b), rest)
  {
    hide Placeholder, BraceFree;
    var p, s := Placeholder(b), run + (Placeholder(q) + rest);
    var i :| 0 <= i <= |s| && OccursAt(p, s, i);
    if i < |run| {
      NoStartAcross(run, q, rest, b, i);
    } else if i < |run| + |Placeholder(q)| {
      assert s[i..] == (Placeholder(q) + rest)[i - |run|..];
      NoStartInOther(q, rest, b, i - |run|);
    }
    var j := i - |run| - |Placeholder(q)|;
    assert s[i..] == rest[j..];
    assert OccursAt(p, rest, j);
  }

  // ---- joined values form a placeholder ----

  predicate Sound(t: Token, b: string) {
    BraceFree(if t.Literal? then t.text else t.name) && t != Variable(b)
  }

  lemma TokenFor(vars: map<string, string>, b: string, v: string) returns (t: Token)
    requires v in Pieces(vars, b) && CleanKeys(vars)
    ensures Sound(t, b) && TokenText(SubstituteToken(t, vars)) == v
  {
    if v == "" {
      t := Literal("");
    } else {
      var key :| key in vars && key != b && vars[key] == v;
      t := Variable(key);
    }
  }

  lemma JoinedForms(vars: map<string, string>, b: string)
    requires CleanKeys(vars) && b in vars && vars[b] != Placeholder(b) && CanJoin(vars, b)
    ensures exists w :: Forms(vars, w, b)
  {
    hide Avoids, Pieces, Placeholder;
    var v1, v2, v3, v4, lo, hi :|
      && v1 in Pieces(vars, b) && v2 in Pieces(vars, b) && v3 in Pieces(vars, b) && v4 in Pieces(vars, b)
      && 0 <= lo <= |b| && 0 <= hi <= |b| && Makes(b, v1, v2, lo, hi, v3, v4);
    var t1 := TokenFor(vars, b, v1);
    var t2 := TokenFor(vars, b, v2);
    var t3 := TokenFor(vars, b, v3);
    var t4 := TokenFor(vars, b, v4);
    var mid := b[lo..hi];
    assert BraceFree(mid) by {
      assert forall c :: c in mid ==> c in b;
    }
    FiveAreForms(vars, b, [t1, t2, Literal(mid), t3, t4], v1 + ((v2 + mid + v3) + v4)) by {
      hide BraceFree;
      FiveTokens([t1, t2, Literal(mid), t3, t4], vars);
      Reassociate(v1, v2, mid, v3, v4);
    }
  }

  lemma FiveAreForms(vars: map<string, string>, b: string, w: seq<Token>, text: string)
    requires b in vars && vars[b] != Placeholder(b) && !Avoids(Placeholder(b), text)
    requires |w| == 5 && text == Flatten(Substitute(w, vars))
    requires Sound(w[0], b) && Sound(w[1], b) && Sound(w[2], b) && Sound(w[3], b) && Sound(w[4], b)
    ensures exists u :: Forms(vars, u, b)
  {
    hide Avoids, Flatten, Substitute, Placeholder, BraceFree;
    assert forall i :: 0 <= i < |w| ==> Sound(w[i], b);
    assert Forms(vars, w, b);
  }

  lemma FiveTokens(w: seq<Token>, vars: map<string, string>)
    requires |w| == 5
    ensures Flatten(Substitute(w, vars))
         == TokenText(SubstituteToken(w[0], vars)) + (TokenText(SubstituteToken(w[1], vars))
            + (TokenText(SubstituteToken(w[2], vars)) + (TokenText(SubstituteToken(w[3], vars))
               + (TokenText(SubstituteToken(w[4], vars)) + ""))))
  {
    hide TokenText, SubstituteToken, Flatten, Substitute;
    TailText(w, vars);
    TailText(w[1..], vars);
    TailText(w[2..], vars);
    TailText(w[3..], vars);
    TailText(w[4..], vars);
    assert w[5..] == [];
    SubstituteNone(vars);
  }

  lemma SubstituteNone(vars: map<string, string>)
    ensures Flatten(Substitute([], vars)) == ""
  {
  }

  lemma Reassociate(a: string, b: string, c: string, d: string, e: string)
    ensures a + (b + (c + (d + (e + "")))) == a + ((b + c + d) + e)
  {
  }

  lemma NeverFormsIff(vars: map<string, string>)
    requires CleanKeys(vars)
    ensures NeverForms(vars) <==> NothingJoins(vars)
  {
    hide CanJoin, Avoids, Flatten, Substitute, Placeholder;
    forall b | b in vars && vars[b] != Placeholder(b) && CanJoin(vars, b)
      ensures !NeverForms(vars)
    {
      JoinedForms(vars, b);
    }
    forall w, b | Forms(vars, w, b)
      ensures !NothingJoins(vars)
    {
      FormedJoins(w, vars, b);
    }
  }

  /** The exact condition for brace-free names and any values whatever: rendering is simultaneous
      substitution, and equally does not depend on the iteration order, if and only if no four values and a
      stretch of a name make up a placeholder that stands for something else. */
  lemma AnyValueIff(vars: map<string, string>)
    requires CleanKeys(vars)
    ensures RendersAtOnce(vars) <==> NothingJoins(vars)
    ensures AnyOrderDoes(vars) <==> NothingJoins(vars)
  {
    NeverFormsIff(vars);
    FormingDecides(vars);
  }
}
