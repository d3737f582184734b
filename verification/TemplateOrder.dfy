/** When the iteration order of the variables matters. Values are texts that may hold placeholders of
    their own, given as token lists. */
module TemplateOrder {
  import opened Common
  import opened Template

  type Values = map<string, seq<Token>>

  predicate Clean(vars: Values) {
    forall key :: key in vars ==> BraceFree(key) && WellFormed(vars[key])
  }

  /** The map the renderer is given. */
  function Texts(vars: Values): map<string, string> {
    map key | key in vars :: Flatten(vars[key])
  }

  predicate Mentions(tokens: seq<Token>, name: string) {
    Variable(name) in tokens
  }

  /** No value holds the placeholder of another variable, unless that variable stands for its own
      placeholder. */
  predicate Harmless(vars: Values) {
    forall a, b :: a in vars && b in vars && a != b && Mentions(vars[a], b) ==> Flatten(vars[b]) == Placeholder(b)
  }

  // ---- substitution of token lists ----

  function ExpandToken(t: Token, vars: Values): seq<Token> {
    if t.Variable? && t.name in vars then vars[t.name] else [t]
  }

  /** Every variable replaced by its value's tokens, at once. */
  function Expand(tokens: seq<Token>, vars: Values): seq<Token> {
    if tokens == [] then [] else ExpandToken(tokens[0], vars) + Expand(tokens[1..], vars)
  }

  lemma ExpandCons(tokens: seq<Token>, vars: Values)
    requires tokens != []
    ensures Expand(tokens, vars) == ExpandToken(tokens[0], vars) + Expand(tokens[1..], vars)
  {
  }

  lemma FlattenCons(tokens: seq<Token>)
    requires tokens != []
    ensures Flatten(tokens) == TokenText(tokens[0]) + Flatten(tokens[1..])
  {
  }

  lemma {:induction false} FlattenConcat(a: seq<Token>, b: seq<Token>)
    ensures Flatten(a + b) == Flatten(a) + Flatten(b)
  {
    if a == [] {
      assert a + b == b;
    } else {
      hide Flatten, TokenText;
      FlattenConcat(a[1..], b);
      ConcatHead(a, b);
      FlattenCons(a + b);
      FlattenCons(a);
      Assoc(TokenText(a[0]), Flatten(a[1..]), Flatten(b));
    }
  }

  lemma FlattenOne(t: Token)
    ensures Flatten([t]) == TokenText(t)
  {
    assert [t][1..] == [];
  }

  /** The expanded list is written as the simultaneous substitution. */
  lemma {:induction false} ExpandIsSubstitute(tokens: seq<Token>, vars: Values)
    ensures Flatten(Expand(tokens, vars)) == Flatten(Substitute(tokens, Texts(vars)))
  {
    if tokens != [] {
      var t := tokens[0];
      ExpandIsSubstitute(tokens[1..], vars);
      FlattenConcat(ExpandToken(t, vars), Expand(tokens[1..], vars));
      FlattenOne(t);
      var sub := Substitute(tokens, Texts(vars));
      assert sub[1..] == Substitute(tokens[1..], Texts(vars));
    }
  }

  lemma {:induction false} ExpandStaysClean(tokens: seq<Token>, vars: Values)
    requires WellFormed(tokens) && Clean(vars)
    ensures WellFormed(Expand(tokens, vars))
  {
    if tokens != [] {
      ExpandStaysClean(tokens[1..], vars);
      assert WellFormed(ExpandToken(tokens[0], vars));
    }
  }

  lemma {:induction false} ExpandConcat(a: seq<Token>, b: seq<Token>, vars: Values)
    ensures Expand(a + b, vars) == Expand(a, vars) + Expand(b, vars)
  {
    if a == [] {
      assert a + b == b;
    } else {
      hide Expand, ExpandToken;
      ExpandConcat(a[1..], b, vars);
      ConcatHead(a, b);
      ExpandCons(a + b, vars);
      ExpandCons(a, vars);
      Assoc(ExpandToken(a[0], vars), Expand(a[1..], vars), Expand(b, vars));
    }
  }

  lemma {:induction false} ExpandUnmentioned(tokens: seq<Token>, key: string, value: seq<Token>)
    requires !Mentions(tokens, key)
    ensures Expand(tokens, map[key := value]) == tokens
  {
    if tokens != [] {
      ExpandUnmentioned(tokens[1..], key, value);
      assert tokens[0] in tokens;
    }
  }

  lemma {:induction false} ExpandNothing(tokens: seq<Token>)
    ensures Expand(tokens, map[]) == tokens
  {
    if tokens != [] {
      ExpandNothing(tokens[1..]);
    }
  }

  // ---- one more replacement ----

  /** A value that is its own placeholder changes nothing. */
  lemma {:induction false} IdentityStays(tokens: seq<Token>, vars: Values, key: string, value: seq<Token>)
    requires key !in vars && Flatten(value) == Placeholder(key)
    ensures Flatten(Expand(tokens, vars[key := value])) == Flatten(Expand(tokens, vars))
  {
    if tokens != [] {
      var t := tokens[0];
      IdentityStays(tokens[1..], vars, key, value);
      FlattenConcat(ExpandToken(t, vars[key := value]), Expand(tokens[1..], vars[key := value]));
      FlattenConcat(ExpandToken(t, vars), Expand(tokens[1..], vars));
      FlattenOne(t);
    }
  }

  /** Replacing one more variable after the others is replacing it with them, if no value mentions it. */
  lemma {:induction false} ExpandTwice(tokens: seq<Token>, vars: Values, key: string, value: seq<Token>)
    requires key !in vars && forall a :: a in vars ==> !Mentions(vars[a], key)
    ensures Expand(Expand(tokens, vars), map[key := value]) == Expand(tokens, vars[key := value])
  {
    if tokens != [] {
      var t := tokens[0];
      ExpandTwice(tokens[1..], vars, key, value);
      ExpandConcat(ExpandToken(t, vars), Expand(tokens[1..], vars), map[key := value]);
      if t.Variable? && t.name in vars {
        ExpandUnmentioned(vars[t.name], key, value);
      } else {
        assert [t][1..] == [];
        assert Expand([t], map[key := value]) == ExpandToken(t, map[key := value]) + [];
      }
    }
  }

  function Among(vars: Values, order: seq<string>): Values {
    map key | key in vars && key in order :: vars[key]
  }

  lemma AmongOneMore(vars: Values, before: seq<string>, key: string)
    requires key in vars
    ensures Among(vars, before + [key]) == Among(vars, before)[key := vars[key]]
  {
  }

  lemma ReplaceExpands(tokens: seq<Token>, key: string, value: seq<Token>)
    requires WellFormed(tokens) && BraceFree(key)
    ensures Replace(Flatten(tokens), Placeholder(key), Flatten(value)) == Flatten(Expand(tokens, map[key := value]))
  {
    hide Replace, Flatten, Expand, Substitute, WellFormed, BraceFree, Placeholder;
    ReplaceOnTokens(tokens, key, Flatten(value));
    ExpandIsSubstitute(tokens, map[key := value]);
    assert Texts(map[key := value]) == map[key := Flatten(value)];
  }

  /** One step of rendering harmless values. */
  lemma OneMoreKey(tokens: seq<Token>, vars: Values, done: Values, key: string)
    requires WellFormed(tokens) && Clean(vars) && Harmless(vars) && key in vars && key !in done
    requires forall a :: a in done ==> a in vars && done[a] == vars[a]
    ensures Replace(Flatten(Expand(tokens, done)), Placeholder(key), Flatten(vars[key]))
            == Flatten(Expand(tokens, done[key := vars[key]]))
  {
    var value := vars[key];
    ExpandStaysClean(tokens, done);
    ReplaceExpands(Expand(tokens, done), key, value);
    if Flatten(value) == Placeholder(key) {
      IdentityStays(tokens, done, key, value);
      IdentityStays(Expand(tokens, done), map[], key, value);
      ExpandNothing(Expand(tokens, done));
      assert map[][key := value] == map[key := value];
    } else {
      ExpandTwice(tokens, done, key, value);
    }
  }

  predicate DistinctKeys(order: seq<string>) {
    forall i, j :: 0 <= i < j < |order| ==> order[i] != order[j]
  }

  lemma {:induction false} OrderedIsExpansion(tokens: seq<Token>, vars: Values, order: seq<string>)
    requires WellFormed(tokens) && Clean(vars) && Harmless(vars) && DistinctKeys(order)
    requires forall i :: 0 <= i < |order| ==> order[i] in vars
    ensures RenderInOrder(Flatten(tokens), Texts(vars), order) == Flatten(Expand(tokens, Among(vars, order)))
  {
    if order == [] {
      assert Among(vars, order) == map[];
      ExpandNothing(tokens);
    } else {
      var before, key := order[..|order| - 1], order[|order| - 1];
      OrderedIsExpansion(tokens, vars, before);
      assert order == before + [key];
      AmongOneMore(vars, before, key);
      OneMoreKey(tokens, vars, Among(vars, before), key);
    }
  }

  /** Harmless values: every order renders the simultaneous substitution. */
  lemma HarmlessIsSimultaneous(tokens: seq<Token>, vars: Values, order: seq<string>)
    requires WellFormed(tokens) && Clean(vars) && Harmless(vars) && IsOrderOf(order, Texts(vars))
    ensures RenderInOrder(Flatten(tokens), Texts(vars), order) == Flatten(Substitute(tokens, Texts(vars)))
  {
    assert forall i :: 0 <= i < |order| ==> order[i] in Texts(vars);
    OrderedIsExpansion(tokens, vars, order);
    assert Among(vars, order) == vars by {
      assert forall key :: key in vars ==> key in Texts(vars);
    }
    ExpandIsSubstitute(tokens, vars);
  }

  // ---- a harmful value shows ----

  lemma {:induction false} LongerShows(tokens: seq<Token>, key: string, value: string)
    requires |value| >= |Placeholder(key)|
    ensures |Flatten(Substitute(tokens, map[key := value]))| >= |Flatten(tokens)|
    ensures |value| > |Placeholder(key)| && Mentions(tokens, key) ==>
      |Flatten(Substitute(tokens, map[key := value]))| > |Flatten(tokens)|
  {
    if tokens != [] {
      LongerShows(tokens[1..], key, value);
      var sub := Substitute(tokens, map[key := value]);
      assert sub[1..] == Substitute(tokens[1..], map[key := value]);
      assert tokens == [tokens[0]] + tokens[1..];
    }
  }

  lemma {:induction false} ShorterShows(tokens: seq<Token>, key: string, value: string)
    requires |value| < |Placeholder(key)|
    ensures |Flatten(Substitute(tokens, map[key := value]))| <= |Flatten(tokens)|
    ensures Mentions(tokens, key) ==> |Flatten(Substitute(tokens, map[key := value]))| < |Flatten(tokens)|
  {
    if tokens != [] {
      ShorterShows(tokens[1..], key, value);
      var sub := Substitute(tokens, map[key := value]);
      assert sub[1..] == Substitute(tokens[1..], map[key := value]);
      assert tokens == [tokens[0]] + tokens[1..];
    }
  }

  lemma SameStart(a: string, b: string, c: string, d: string)
    requires |a| == |c| && a + b == c + d
    ensures a == c && b == d
  {
    assert a == (a + b)[..|a|] && c == (c + d)[..|c|];
    assert b == (a + b)[|a|..] && d == (c + d)[|c|..];
  }

  lemma {:induction false} EquallyLongShows(tokens: seq<Token>, key: string, value: string)
    requires |value| == |Placeholder(key)| && Mentions(tokens, key)
    requires Flatten(Substitute(tokens, map[key := value])) == Flatten(tokens)
    ensures value == Placeholder(key)
  {
    var t, vars := tokens[0], map[key := value];
    var sub := Substitute(tokens, vars);
    assert sub[0] == SubstituteToken(t, vars) && sub[1..] == Substitute(tokens[1..], vars);
    FlattenCons(sub);
    FlattenCons(tokens);
    hide Flatten, Substitute;
    SameStart(TokenText(sub[0]), Flatten(sub[1..]), TokenText(t), Flatten(tokens[1..]));
    if t != Variable(key) {
      assert tokens == [t] + tokens[1..];
      EquallyLongShows(tokens[1..], key, value);
    }
  }

  lemma ReplacementShows(tokens: seq<Token>, key: string, value: string)
    requires Mentions(tokens, key) && value != Placeholder(key)
    ensures Flatten(Substitute(tokens, map[key := value])) != Flatten(tokens)
  {
    if |value| < |Placeholder(key)| {
      ShorterShows(tokens, key, value);
    } else if |value| > |Placeholder(key)| {
      LongerShows(tokens, key, value);
    } else if Flatten(Substitute(tokens, map[key := value])) == Flatten(tokens) {
      EquallyLongShows(tokens, key, value);
    }
  }

  lemma {:induction false} Enumerate(keys: set<string>) returns (order: seq<string>)
    ensures DistinctKeys(order) && forall key :: key in keys <==> key in order
    decreases |keys|
  {
    if keys == {} {
      order := [];
    } else {
      var key :| key in keys;
      var rest := Enumerate(keys - {key});
      order := rest + [key];
    }
  }

  lemma RenderMore(body: string, vars: map<string, string>, order: seq<string>, key: string)
    requires key in vars && forall i :: 0 <= i < |order| ==> order[i] in vars
    ensures RenderInOrder(body, vars, order + [key])
            == Replace(RenderInOrder(body, vars, order), Placeholder(key), vars[key])
  {
    assert (order + [key])[..|order + [key]| - 1] == order;
  }

  /** The placeholder of `a` passes through the other variables. */
  lemma {:induction false} OthersLeaveIt(a: string, vars: map<string, string>, order: seq<string>)
    requires BraceFree(a) && a !in order
    requires forall i :: 0 <= i < |order| ==> order[i] in vars && BraceFree(order[i])
    ensures RenderInOrder(Placeholder(a), vars, order) == Placeholder(a)
  {
    if order != [] {
      var before, key := order[..|order| - 1], order[|order| - 1];
      OthersLeaveIt(a, vars, before);
      assert order == before + [key];
      RenderMore(Placeholder(a), vars, before, key);
      UntouchedByOther(a, key, vars[key]);
    }
  }

  lemma OrderOfTwoLast(vars: map<string, string>, others: seq<string>, k: string, l: string)
    requires k in vars && l in vars && k != l && DistinctKeys(others)
    requires forall key :: key in others <==> key in vars && key != k && key != l
    ensures IsOrderOf(others + [k, l], vars) && others + [k, l] == others + [k] + [l]
  {
    var order := others + [k, l];
    assert forall i :: 0 <= i < |others| ==> others[i] in others;
    assert order[|others|] == k && order[|others| + 1] == l;
  }

  /** The placeholder of `a` after all other variables and then `k` and `l`. */
  lemma LastTwo(a: string, vars: map<string, string>, others: seq<string>, k: string, l: string)
    requires BraceFree(a) && a !in others && k in vars && l in vars
    requires forall i :: 0 <= i < |others| ==> others[i] in vars && BraceFree(others[i])
    ensures forall i :: 0 <= i < |others + [k] + [l]| ==> (others + [k] + [l])[i] in vars
    ensures RenderInOrder(Placeholder(a), vars, others + [k] + [l])
            == Replace(Replace(Placeholder(a), Placeholder(k), vars[k]), Placeholder(l), vars[l])
  {
    hide Replace, Placeholder, RenderInOrder;
    OthersLeaveIt(a, vars, others);
    RenderMore(Placeholder(a), vars, others, k);
    RenderMore(Placeholder(a), vars, others + [k], l);
  }

  /** A value that holds another variable's placeholder, that variable standing for something else: two
      orders give two texts for the body `{{a}}`, one of them the simultaneous substitution. */
  lemma HarmfulShows(vars: Values, a: string, b: string) returns (first: seq<string>, second: seq<string>)
    requires Clean(vars) && a in vars && b in vars && a != b
    requires Mentions(vars[a], b) && Flatten(vars[b]) != Placeholder(b)
    ensures IsOrderOf(first, Texts(vars)) && IsOrderOf(second, Texts(vars))
    ensures RenderInOrder(Placeholder(a), Texts(vars), first) != Flatten(vars[a])
    ensures RenderInOrder(Placeholder(a), Texts(vars), second) == Flatten(vars[a])
  {
    hide Replace, Flatten, RenderInOrder, Mentions, IsOrderOf, DistinctKeys;
    var texts := Texts(vars);
    var others := Enumerate(vars.Keys - {a, b});
    first, second := others + [a] + [b], others + [b] + [a];
    OrderOfTwoLast(texts, others, a, b);
    OrderOfTwoLast(texts, others, b, a);
    assert forall i :: 0 <= i < |others| ==> others[i] in others;
    LastTwo(a, texts, others, a, b);
    LastTwo(a, texts, others, b, a);
    ReplaceWhole(a, texts[a]);
    ReplaceOnTokens(vars[a], b, texts[b]);
    ReplacementShows(vars[a], b, texts[b]);
    UntouchedByOther(a, b, texts[b]);
  }

  /** Every well-formed body renders to the simultaneous substitution, in every order. */
  ghost predicate AlwaysSimultaneous(vars: Values) {
    forall tokens, order :: WellFormed(tokens) && IsOrderOf(order, Texts(vars)) ==>
      RenderInOrder(Flatten(tokens), Texts(vars), order) == Flatten(Substitute(tokens, Texts(vars)))
  }

  /** Every well-formed body renders to one text, whatever the order. */
  ghost predicate OrderNeverMatters(vars: Values) {
    forall tokens, first, second ::
      WellFormed(tokens) && IsOrderOf(first, Texts(vars)) && IsOrderOf(second, Texts(vars)) ==>
      RenderInOrder(Flatten(tokens), Texts(vars), first) == RenderInOrder(Flatten(tokens), Texts(vars), second)
  }

  lemma WholeBody(vars: Values, a: string)
    requires a in vars && BraceFree(a)
    ensures WellFormed([Variable(a)]) && Flatten([Variable(a)]) == Placeholder(a)
    ensures Flatten(Substitute([Variable(a)], Texts(vars))) == Flatten(vars[a])
  {
    FlattenOne(Variable(a));
    assert [Variable(a)][1..] == [];
    assert Substitute([Variable(a)], Texts(vars)) == [Literal(Texts(vars)[a])];
    FlattenOne(Literal(Texts(vars)[a]));
  }

  /** The exact condition, for brace-free names and values written as well-formed templates: rendering is
      simultaneous substitution, and equally does not depend on the map's iteration order, if and only if
      no value holds another variable's placeholder that stands for anything but itself. */
  lemma SimultaneousIff(vars: Values)
    requires Clean(vars)
    ensures AlwaysSimultaneous(vars) <==> Harmless(vars)
    ensures OrderNeverMatters(vars) <==> Harmless(vars)
  {
    if Harmless(vars) {
      forall tokens, order | WellFormed(tokens) && IsOrderOf(order, Texts(vars))
        ensures RenderInOrder(Flatten(tokens), Texts(vars), order) == Flatten(Substitute(tokens, Texts(vars)))
      {
        HarmlessIsSimultaneous(tokens, vars, order);
      }
    } else {
      var a, b :| a in vars && b in vars && a != b && Mentions(vars[a], b) && Flatten(vars[b]) != Placeholder(b);
      var first, second := HarmfulShows(vars, a, b);
      WholeBody(vars, a);
      var body := [Variable(a)];
      assert RenderInOrder(Flatten(body), Texts(vars), first) != RenderInOrder(Flatten(body), Texts(vars), second);
    }
  }
}
