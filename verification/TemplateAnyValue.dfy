/** When the iteration order matters for values that are any texts at all: their braces may join with
    those of other values and with the text between them into placeholders nobody wrote. */
module TemplateAnyValue {
  import opened Common
  import opened Template
  import opened TemplateOrder

  predicate CleanKeys(vars: map<string, string>) {
    forall key :: key in vars ==> BraceFree(key)
  }

  /** A well-formed text without the placeholder of `b`, its variables replaced, holds that placeholder,
      which stands for something else. */
  ghost predicate Forms(vars: map<string, string>, w: seq<Token>, b: string) {
    && WellFormed(w) && b in vars && vars[b] != Placeholder(b) && Variable(b) !in w
    && !Avoids(Placeholder(b), Flatten(Substitute(w, vars)))
  }

  /** No text forms a placeholder. */
  ghost predicate NeverForms(vars: map<string, string>) {
    forall w, b :: !Forms(vars, w, b)
  }

  /** No text of fewer than `m` tokens does. */
  ghost predicate FormsNoneBelow(vars: map<string, string>, m: nat) {
    forall w, b :: |w| < m ==> !Forms(vars, w, b)
  }

  // ---- one replacement among replaced and unreplaced variables ----

  predicate Undone(t: Token, done: map<string, string>) {
    t.Variable? && t.name !in done
  }

  predicate SubMap(done: map<string, string>, vars: map<string, string>) {
    forall key :: key in done ==> key in vars && done[key] == vars[key]
  }

  function FirstUndone(tokens: seq<Token>, done: map<string, string>): (k: nat)
    ensures k <= |tokens| && (forall i :: 0 <= i < k ==> !Undone(tokens[i], done))
    ensures k < |tokens| ==> Undone(tokens[k], done)
  {
    if tokens == [] || Undone(tokens[0], done) then 0 else FirstUndone(tokens[1..], done) + 1
  }

  lemma {:induction false} SubstituteConcat(a: seq<Token>, b: seq<Token>, vars: map<string, string>)
    ensures Substitute(a + b, vars) == Substitute(a, vars) + Substitute(b, vars)
  {
    if a == [] {
      assert a + b == b;
    } else {
      SubstituteConcat(a[1..], b, vars);
      ConcatHead(a, b);
    }
  }

  /** Two maps that agree on the variables of a text. */
  lemma {:induction false} SameSubstitution(tokens: seq<Token>, p: map<string, string>, q: map<string, string>)
    requires forall i :: 0 <= i < |tokens| ==> SubstituteToken(tokens[i], p) == SubstituteToken(tokens[i], q)
    ensures Substitute(tokens, p) == Substitute(tokens, q)
  {
    if tokens != [] {
      SameSubstitution(tokens[1..], p, q);
    }
  }

  /** A text around one of its tokens. */
  lemma SubstituteAround(tokens: seq<Token>, k: nat, vars: map<string, string>)
    requires k < |tokens|
    ensures Flatten(Substitute(tokens, vars))
         == Flatten(Substitute(tokens[..k], vars))
            + (TokenText(SubstituteToken(tokens[k], vars)) + Flatten(Substitute(tokens[k + 1..], vars)))
  {
    var tail := tokens[k..];
    assert tokens == tokens[..k] + tail && tail[0] == tokens[k] && tail[1..] == tokens[k + 1..];
    SubstituteConcat(tokens[..k], tail, vars);
    FlattenConcat(Substitute(tokens[..k], vars), Substitute(tail, vars));
    TailText(tail, vars);
  }

  lemma TailText(tail: seq<Token>, vars: map<string, string>)
    requires tail != []
    ensures Flatten(Substitute(tail, vars))
         == TokenText(SubstituteToken(tail[0], vars)) + Flatten(Substitute(tail[1..], vars))
  {
    var sub := Substitute(tail, vars);
    assert sub[0] == SubstituteToken(tail[0], vars) && sub[1..] == Substitute(tail[1..], vars);
  }

  /** A placeholder that starts before another one and is not over by then does not exist. */
  lemma NoStartAcross(run: string, q: string, rest: string, b: string, i: nat)
    requires BraceFree(b) && Avoids(Placeholder(b), run) && i < |run|
    ensures !Prefix(Placeholder(b), (run + (Placeholder(q) + rest))[i..])
  {
    var p, s := Placeholder(b), run + (Placeholder(q) + rest);
    var k := |run| - i;
    if k >= |p| {
      assert s[i..][..|p|] == run[i..][..|p|];
      assert !OccursAt(p, run, i);
    } else {
      assert s[|run|] == '{' && s[|run| + 1] == '{';
      NotAtBoundary(b, k);
      if p[k] != '{' {
        assert s[i..][k] == '{';
        Mismatch(p, s[i..], k);
      } else {
        assert s[i..][k + 1] == '{';
        Mismatch(p, s[i..], k + 1);
      }
    }
  }

  /** Behind its start a placeholder has no two opening braces in a row. */
  lemma NotAtBoundary(b: string, k: nat)
    requires BraceFree(b) && 1 <= k < |Placeholder(b)|
    ensures Placeholder(b)[k] != '{' || (k + 1 < |Placeholder(b)| && Placeholder(b)[k + 1] != '{')
  {
    var p := Placeholder(b);
    if 2 <= k < 2 + |b| {
      assert p[k] == b[k - 2] && b[k - 2] in b;
    }
    if k == 1 && |b| > 0 {
      assert p[2] == b[0] && b[0] in b;
    }
  }

  lemma CopyAll(s: string, p: string, v: string)
    requires |p| > 0 && Avoids(p, s)
    ensures Replace(s, p, v) == s
  {
    assert s + "" == s;
    forall i | 0 <= i < |s| ensures !Prefix(p, (s + "")[i..]) {
      assert !OccursAt(p, s, i);
    }
    CopyOver(s, "", p, v);
    ShortStays("", p, v);
  }

  /** The text up to an unreplaced variable is copied. */
  lemma CopyRun(run: string, q: string, rest: string, b: string, v: string)
    requires BraceFree(b) && Avoids(Placeholder(b), run)
    ensures Replace(run + (Placeholder(q) + rest), Placeholder(b), v)
         == run + Replace(Placeholder(q) + rest, Placeholder(b), v)
  {
    forall i | 0 <= i < |run| ensures !Prefix(Placeholder(b), (run + (Placeholder(q) + rest))[i..]) {
      NoStartAcross(run, q, rest, b, i);
    }
    CopyOver(run, Placeholder(q) + rest, Placeholder(b), v);
  }

  /** An unreplaced variable is replaced if it is the right one and copied if not. */
  lemma AtVariable(q: string, rest: string, b: string, v: string)
    requires BraceFree(q) && BraceFree(b)
    ensures Replace(Placeholder(q) + rest, Placeholder(b), v)
         == (if q == b then v else Placeholder(q)) + Replace(rest, Placeholder(b), v)
  {
    var s, p := Placeholder(q) + rest, Placeholder(b);
    if q == b {
      assert s[..|p|] == p && s[|p|..] == rest;
      ReplaceHit(s, p, v);
    } else {
      forall i | 0 <= i < |Placeholder(q)| ensures !Prefix(p, s[i..]) {
        NoStartInOther(q, rest, b, i);
      }
      CopyOver(Placeholder(q), rest, p, v);
    }
  }

  /** A run of replaced variables and literals holds no placeholder of an unreplaced variable. */
  lemma RunAvoids(vars: map<string, string>, done: map<string, string>, run: seq<Token>, b: string, m: nat)
    requires SubMap(done, vars) && WellFormed(run) && b in vars && b !in done && vars[b] != Placeholder(b)
    requires FormsNoneBelow(vars, m) && |run| < m
    requires forall i :: 0 <= i < |run| ==> !Undone(run[i], done)
    ensures Avoids(Placeholder(b), Flatten(Substitute(run, done))) && Variable(b) !in run
  {
    SameSubstitution(run, done, vars);
    assert !Forms(vars, run, b);
  }

  lemma {:induction false} ReplaceAmong(tokens: seq<Token>, vars: map<string, string>, done: map<string, string>,
                                        b: string, m: nat)
    requires WellFormed(tokens) && SubMap(done, vars) && FormsNoneBelow(vars, m)
    requires b in vars && b !in done && BraceFree(b) && vars[b] != Placeholder(b)
    requires |tokens| < m || (|tokens| == m && FirstUndone(tokens, done) < m)
    ensures Replace(Flatten(Substitute(tokens, done)), Placeholder(b), vars[b])
         == Flatten(Substitute(tokens, done[b := vars[b]]))
    decreases |tokens|
  {
    hide Replace, Placeholder, Flatten, Substitute, FirstUndone, FormsNoneBelow, Avoids;
    var more := done[b := vars[b]];
    var k := FirstUndone(tokens, done);
    var run := tokens[..k];
    RunAvoids(vars, done, run, b, m);
    SameSubstitution(run, done, more) by { RunUnchanged(run, done, b, vars[b]); }
    PlaceholderLength(b);
    if k == |tokens| {
      assert run == tokens;
      CopyAll(Flatten(Substitute(tokens, done)), Placeholder(b), vars[b]);
    } else {
      var q, rest := tokens[k].name, tokens[k + 1..];
      ReplaceAmong(rest, vars, done, b, m);
      SubstituteAround(tokens, k, done);
      SubstituteAround(tokens, k, more);
      CopyRun(Flatten(Substitute(run, done)), q, Flatten(Substitute(rest, done)), b, vars[b]);
      AtVariable(q, Flatten(Substitute(rest, done)), b, vars[b]);
    }
  }

  lemma RunUnchanged(run: seq<Token>, done: map<string, string>, b: string, v: string)
    requires Variable(b) !in run
    ensures forall i :: 0 <= i < |run| ==> SubstituteToken(run[i], done) == SubstituteToken(run[i], done[b := v])
  {
    forall i | 0 <= i < |run| ensures SubstituteToken(run[i], done) == SubstituteToken(run[i], done[b := v]) {
      assert run[i] in run;
    }
  }

  lemma PlaceholderLength(b: string)
    ensures |Placeholder(b)| > 0
  {
  }

  // ---- safe values render simultaneously ----

  lemma {:induction false} ReplaceSelf(s: string, p: string)
    requires |p| > 0
    ensures Replace(s, p, p) == s
  {
    if |s| < |p| {
      ShortStays(s, p, p);
    } else if s[..|p|] == p {
      ReplaceHit(s, p, p);
      ReplaceSelf(s[|p|..], p);
    } else {
      ReplaceMiss(s, p, p);
      ReplaceSelf(s[1..], p);
    }
  }

  /** A variable that stands for its own placeholder. */
  lemma {:induction false} SelfValue(tokens: seq<Token>, done: map<string, string>, b: string)
    requires b !in done
    ensures Flatten(Substitute(tokens, done[b := Placeholder(b)])) == Flatten(Substitute(tokens, done))
  {
    if tokens != [] {
      SelfValue(tokens[1..], done, b);
      TailText(tokens, done);
      TailText(tokens, done[b := Placeholder(b)]);
    }
  }

  lemma OneMoreValue(tokens: seq<Token>, vars: map<string, string>, done: map<string, string>, b: string, m: nat)
    requires WellFormed(tokens) && SubMap(done, vars) && FormsNoneBelow(vars, m)
    requires b in vars && b !in done && BraceFree(b)
    requires |tokens| < m || (|tokens| == m && FirstUndone(tokens, done) < m)
    ensures Replace(Flatten(Substitute(tokens, done)), Placeholder(b), vars[b])
         == Flatten(Substitute(tokens, done[b := vars[b]]))
  {
    hide Replace, Flatten, Substitute, FirstUndone, FormsNoneBelow;
    if vars[b] == Placeholder(b) {
      ReplaceSelf(Flatten(Substitute(tokens, done)), Placeholder(b));
      SelfValue(tokens, done, b);
    } else {
      ReplaceAmong(tokens, vars, done, b, m);
    }
  }

  lemma {:induction false} OrderedIsSafe(tokens: seq<Token>, vars: map<string, string>, order: seq<string>)
    requires WellFormed(tokens) && CleanKeys(vars) && NeverForms(vars) && DistinctKeys(order)
    requires forall i :: 0 <= i < |order| ==> order[i] in vars
    ensures RenderInOrder(Flatten(tokens), vars, order) == Flatten(Substitute(tokens, Restrict(vars, order)))
  {
    hide Flatten, Substitute, Replace;
    if order == [] {
      SubstituteNothing(tokens);
      assert Restrict(vars, order) == map[];
    } else {
      var before, key := order[..|order| - 1], order[|order| - 1];
      OrderedIsSafe(tokens, vars, before);
      assert order == before + [key];
      RestrictOneMore(vars, before, key);
      OneMoreValue(tokens, vars, Restrict(vars, before), key, |tokens| + 1);
    }
  }

  // ---- values that form a placeholder ----

  /** A shortest text that forms one. */
  lemma Shortest(vars: map<string, string>, w: seq<Token>, b: string) returns (v: seq<Token>, c: string)
    requires Forms(vars, w, b)
    ensures Forms(vars, v, c) && FormsNoneBelow(vars, |v|)
    decreases |w|
  {
    if x, y :| |x| < |w| && Forms(vars, x, y) {
      v, c := Shortest(vars, x, y);
    } else {
      v, c := w, b;
    }
  }

  lemma {:induction false} ReplaceGrows(s: string, p: string, v: string)
    requires 0 < |p| <= |v|
    ensures |Replace(s, p, v)| >= |s|
  {
    if |s| >= |p| {
      ReplaceGrows(if s[..|p|] == p then s[|p|..] else s[1..], p, v);
    }
  }

  lemma {:induction false} ReplaceShrinks(s: string, p: string, v: string)
    requires 0 < |p| && |v| <= |p|
    ensures |Replace(s, p, v)| <= |s|
  {
    if |s| >= |p| {
      ReplaceShrinks(if s[..|p|] == p then s[|p|..] else s[1..], p, v);
    }
  }

  /** Replacing an occurrence by something else changes the text. */
  lemma {:induction false} ReplaceChanges(s: string, p: string, v: string)
    requires |p| > 0 && v != p && !Avoids(p, s)
    ensures Replace(s, p, v) != s
  {
    var i :| 0 <= i <= |s| && OccursAt(p, s, i);
    if s[..|p|] == p {
      ReplaceHit(s, p, v);
      var rest := s[|p|..];
      if |v| > |p| {
        ReplaceGrows(rest, p, v);
      } else if |v| < |p| {
        ReplaceShrinks(rest, p, v);
      } else {
        assert (v + Replace(rest, p, v))[..|p|] == v;
      }
    } else {
      assert i > 0 by {
        assert s[0..] == s;
      }
      assert s[1..][i - 1..] == s[i..];
      assert OccursAt(p, s[1..], i - 1);
      ReplaceMiss(s, p, v);
      ReplaceChanges(s[1..], p, v);
      assert ([s[0]] + Replace(s[1..], p, v))[1..] == Replace(s[1..], p, v);
    }
  }

  /** Keys that the text does not mention leave it alone. */
  lemma {:induction false} UnmentionedFirst(w: seq<Token>, vars: map<string, string>, order: seq<string>)
    requires WellFormed(w) && CleanKeys(vars)
    requires forall i :: 0 <= i < |order| ==> order[i] in vars && Variable(order[i]) !in w
    ensures RenderInOrder(Flatten(w), vars, order) == Flatten(w)
  {
    hide Flatten, Replace;
    if order != [] {
      var before, key := order[..|order| - 1], order[|order| - 1];
      UnmentionedFirst(w, vars, before);
      assert order == before + [key];
      RenderMore(Flatten(w), vars, before, key);
      ReplaceOnTokens(w, key, vars[key]);
      RunUnchanged(w, map[], key, vars[key]);
      SameSubstitution(w, map[], map[key := vars[key]]);
      SubstituteNothing(w);
    }
  }

  /** The text with the keys of `order` replaced, after keys that it does not mention. */
  lemma {:induction false} MentionedNext(w: seq<Token>, vars: map<string, string>, first: seq<string>,
                                         order: seq<string>)
    requires WellFormed(w) && CleanKeys(vars) && FormsNoneBelow(vars, |w|) && DistinctKeys(order)
    requires forall i :: 0 <= i < |first| ==> first[i] in vars && Variable(first[i]) !in w
    requires forall i :: 0 <= i < |order| ==> order[i] in vars && Variable(order[i]) in w
    ensures forall i :: 0 <= i < |first + order| ==> (first + order)[i] in vars
    ensures RenderInOrder(Flatten(w), vars, first + order) == Flatten(Substitute(w, Restrict(vars, order)))
  {
    hide Flatten, Replace, Substitute, FormsNoneBelow, RenderInOrder, BraceFree, FirstUndone, TokenText;
    if order == [] {
      assert first + order == first;
      UnmentionedFirst(w, vars, first);
      SubstituteNothing(w);
      assert Restrict(vars, order) == map[];
    } else {
      var before, key := order[..|order| - 1], order[|order| - 1];
      MentionedNext(w, vars, first, before);
      assert order == before + [key] && first + order == (first + before) + [key];
      RenderMore(Flatten(w), vars, first + before, key);
      RestrictOneMore(vars, before, key);
      var done := Restrict(vars, before);
      SomeUndone(w, done, key);
      OneMoreValue(w, vars, done, key, |w|);
    }
  }

  lemma SomeUndone(w: seq<Token>, done: map<string, string>, key: string)
    requires Variable(key) in w && key !in done
    ensures FirstUndone(w, done) < |w|
  {
    var i :| 0 <= i < |w| && w[i] == Variable(key);
    assert Undone(w[i], done);
  }

  /** The keys a text mentions. */
  function Mentioned(vars: map<string, string>, w: seq<Token>): set<string> {
    set key | key in vars && Variable(key) in w
  }

  /** Keys that a text mentions, all of them. */
  ghost predicate AllKeysOf(vars: map<string, string>, w: seq<Token>, mids: seq<string>) {
    DistinctKeys(mids) && forall key :: key in mids <==> key in Mentioned(vars, w)
  }

  /** Keys that it does not. */
  ghost predicate NoKeysOf(vars: map<string, string>, w: seq<Token>, keys: seq<string>) {
    forall i :: 0 <= i < |keys| ==> keys[i] in vars && Variable(keys[i]) !in w
  }

  /** Whatever comes before them, replacing all mentioned keys of such a text is simultaneous. */
  lemma MentionedAtOnce(vars: map<string, string>, w: seq<Token>, others: seq<string>, mids: seq<string>)
    requires WellFormed(w) && CleanKeys(vars) && FormsNoneBelow(vars, |w|)
    requires NoKeysOf(vars, w, others) && AllKeysOf(vars, w, mids)
    ensures forall i :: 0 <= i < |others + mids| ==> (others + mids)[i] in vars
    ensures RenderInOrder(Flatten(w), vars, others + mids) == Flatten(Substitute(w, vars))
  {
    hide Flatten, Replace, Substitute, FormsNoneBelow, RenderInOrder, Restrict;
    assert forall i :: 0 <= i < |mids| ==> mids[i] in mids;
    MentionedNext(w, vars, others, mids);
    AllMentioned(vars, w, mids);
  }

  /** One key more, whose placeholder the replaced text has come to hold. */
  lemma LastShows(vars: map<string, string>, w: seq<Token>, keys: seq<string>, b: string)
    requires Forms(vars, w, b) && forall i :: 0 <= i < |keys| ==> keys[i] in vars
    requires RenderInOrder(Flatten(w), vars, keys) == Flatten(Substitute(w, vars))
    ensures forall i :: 0 <= i < |keys + [b]| ==> (keys + [b])[i] in vars
    ensures RenderInOrder(Flatten(w), vars, keys + [b]) != Flatten(Substitute(w, vars))
  {
    hide Flatten, Replace, Substitute, Avoids, Placeholder, RenderInOrder, WellFormed;
    RenderMore(Flatten(w), vars, keys, b);
    PlaceholderLength(b);
    ReplaceChanges(Flatten(Substitute(w, vars)), Placeholder(b), vars[b]);
  }

  /** Rendering a text that forms a placeholder, that placeholder's variable last: not what simultaneous
      substitution gives; that variable first: exactly that. */
  lemma FormedShows(vars: map<string, string>, w: seq<Token>, b: string)
    returns (last: seq<string>, first: seq<string>)
    requires CleanKeys(vars) && Forms(vars, w, b) && FormsNoneBelow(vars, |w|)
    ensures IsOrderOf(last, vars) && IsOrderOf(first, vars)
    ensures RenderInOrder(Flatten(w), vars, last) != Flatten(Substitute(w, vars))
    ensures RenderInOrder(Flatten(w), vars, first) == Flatten(Substitute(w, vars))
  {
    hide Flatten, Replace, Substitute, FormsNoneBelow, Avoids, Placeholder, RenderInOrder, WellFormed, BraceFree;
    var others, mids := SplitKeys(vars, w, b);
    OrdersOf(vars, others, mids, b);
    last := (others + mids) + [b];
    first := ([b] + others) + mids;
    MentionedAtOnce(vars, w, others, mids);
    MentionedAtOnce(vars, w, [b] + others, mids);
    LastShows(vars, w, others + mids, b);
  }

  lemma SplitKeys(vars: map<string, string>, w: seq<Token>, b: string) returns (others: seq<string>, mids: seq<string>)
    requires b in vars && Variable(b) !in w
    ensures AllKeysOf(vars, w, mids) && NoKeysOf(vars, w, others) && NoKeysOf(vars, w, [b] + others)
    ensures DistinctKeys(others) && b !in others && b !in mids
    ensures forall key :: key in vars <==> key in others || key in mids || key == b
    ensures forall key :: key in others ==> key !in mids
  {
    others := Enumerate(vars.Keys - Mentioned(vars, w) - {b});
    mids := Enumerate(Mentioned(vars, w));
    assert forall i :: 0 <= i < |others| ==> others[i] in others;
  }

  lemma OrdersOf(vars: map<string, string>, others: seq<string>, mids: seq<string>, b: string)
    requires b in vars && b !in others && b !in mids && DistinctKeys(others) && DistinctKeys(mids)
    requires forall key :: key in vars <==> key in others || key in mids || key == b
    requires forall key :: key in others ==> key !in mids
    ensures IsOrderOf((others + mids) + [b], vars) && IsOrderOf(([b] + others) + mids, vars)
  {
    JoinedOrder(others, mids, [b], vars);
    JoinedOrder([b], others, mids, vars);
  }

  lemma JoinedOrder(x: seq<string>, y: seq<string>, z: seq<string>, vars: map<string, string>)
    requires DistinctKeys(x) && DistinctKeys(y) && DistinctKeys(z)
    requires forall key :: key in x ==> key !in y && key !in z
    requires forall key :: key in y ==> key !in z
    requires forall key :: key in vars <==> key in x || key in y || key in z
    ensures IsOrderOf((x + y) + z, vars)
  {
    JoinedDistinct(x, y);
    JoinedDistinct(x + y, z);
    var all := (x + y) + z;
    assert forall key :: key in all <==> key in x || key in y || key in z;
    assert forall i :: 0 <= i < |all| ==> all[i] in all;
  }

  lemma JoinedDistinct(a: seq<string>, b: seq<string>)
    requires DistinctKeys(a) && DistinctKeys(b) && forall key :: key in a ==> key !in b
    ensures DistinctKeys(a + b)
  {
    forall i, j | 0 <= i < j < |a + b| ensures (a + b)[i] != (a + b)[j] {
      if i < |a| <= j {
        assert a[i] in a && b[j - |a|] in b;
      }
    }
  }

  /** Once all mentioned keys are replaced, everything is. */
  lemma AllMentioned(vars: map<string, string>, w: seq<Token>, mids: seq<string>)
    requires forall key :: key in Mentioned(vars, w) <==> key in mids
    ensures Substitute(w, Restrict(vars, mids)) == Substitute(w, vars)
  {
    forall i | 0 <= i < |w| ensures SubstituteToken(w[i], Restrict(vars, mids)) == SubstituteToken(w[i], vars) {
      assert w[i] in w;
      if w[i].Variable? && w[i].name in vars {
        assert w[i].name in Mentioned(vars, w);
      }
    }
    SameSubstitution(w, Restrict(vars, mids), vars);
  }

  ghost predicate RendersAtOnce(vars: map<string, string>) {
    forall tokens, order :: WellFormed(tokens) && IsOrderOf(order, vars) ==>
      RenderInOrder(Flatten(tokens), vars, order) == Flatten(Substitute(tokens, vars))
  }

  ghost predicate AnyOrderDoes(vars: map<string, string>) {
    forall tokens, first, second :: WellFormed(tokens) && IsOrderOf(first, vars) && IsOrderOf(second, vars) ==>
      RenderInOrder(Flatten(tokens), vars, first) == RenderInOrder(Flatten(tokens), vars, second)
  }

  /** Rendering is simultaneous substitution, and equally does not depend on the iteration order, if and only
      if no text forms a placeholder that stands for something else. */
  lemma FormingDecides(vars: map<string, string>)
    requires CleanKeys(vars)
    ensures RendersAtOnce(vars) <==> NeverForms(vars)
    ensures AnyOrderDoes(vars) <==> NeverForms(vars)
  {
    hide Flatten, Replace, Substitute, RenderInOrder;
    if NeverForms(vars) {
      forall tokens, order | WellFormed(tokens) && IsOrderOf(order, vars)
        ensures RenderInOrder(Flatten(tokens), vars, order) == Flatten(Substitute(tokens, vars))
      {
        OrderedIsSafe(tokens, vars, order);
        assert Restrict(vars, order) == vars;
      }
    } else {
      var w, b :| Forms(vars, w, b);
      var v, x := Shortest(vars, w, b);
      var last, first := FormedShows(vars, v, x);
    }
  }
}
