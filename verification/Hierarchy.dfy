// Dotted parameter names: which names a listing selects, and what a prefix means.
module Hierarchy {
  import opened Text

  const DOT := '.'

  /** The tokens of the prefix start the tokens of the name. */
  predicate Matches(prefix: string, name: string) {
    Tokens(prefix, DOT) <= Tokens(name, DOT)
  }

  function Depth(name: string): nat {
    |Tokens(name, DOT)|
  }

  /** The name is no further below the prefix than the depth allows. */
  predicate Close(name: string, prefix: string, depth: nat) {
    depth == 0 || Depth(name) - Depth(prefix) <= depth
  }

  /** The first matching prefix decides. */
  predicate Within(name: string, prefixes: seq<string>, depth: nat) {
    prefixes != [] &&
    if Matches(prefixes[0], name) then Close(name, prefixes[0], depth)
    else Within(name, prefixes[1..], depth)
  }

  predicate Selected(name: string, prefixes: seq<string>, depth: nat) {
    if prefixes == [] then depth == 0 || Depth(name) <= depth else Within(name, prefixes, depth)
  }

  /** All prefixes that match the name agree on whether it is close enough. */
  ghost predicate Unanimous(name: string, prefixes: seq<string>, depth: nat) {
    forall p, q :: p in prefixes && q in prefixes && Matches(p, name) && Matches(q, name) ==>
      (Close(name, p, depth) <==> Close(name, q, depth))
  }

  /** Some prefix admits the name on its own. */
  ghost predicate Admitted(name: string, prefixes: seq<string>, depth: nat) {
    exists p :: p in prefixes && Matches(p, name) && Close(name, p, depth)
  }

  /** Where the matching prefixes agree, a name is within iff some prefix admits it. */
  lemma {:induction false} UnanimousMeans(name: string, prefixes: seq<string>, depth: nat)
    requires Unanimous(name, prefixes, depth)
    ensures Within(name, prefixes, depth) <==> Admitted(name, prefixes, depth)
  {
    hide Matches, Close;
    if prefixes != [] {
      assert prefixes == [prefixes[0]] + prefixes[1..];
      if Matches(prefixes[0], name) {
        assert prefixes[0] in prefixes;
      } else {
        UnanimousMeans(name, prefixes[1..], depth);
      }
    }
  }

  /** Recursively, a name is listed iff some prefix matches it, in whatever order the prefixes come. */
  lemma RecursiveIsOrderless(name: string, prefixes: seq<string>)
    requires prefixes != []
    ensures Selected(name, prefixes, 0) <==> exists p :: p in prefixes && Matches(p, name)
  {
    hide Matches;
    UnanimousMeans(name, prefixes, 0);
  }

  // --- when the order of the prefixes matters ------------------------------------------------

  /** Every order of the prefixes selects the name, or none does. */
  ghost predicate Orderless(name: string, prefixes: seq<string>, depth: nat) {
    forall other :: multiset(other) == multiset(prefixes) ==>
      (Selected(name, other, depth) <==> Selected(name, prefixes, depth))
  }

  lemma SameElements(a: seq<string>, b: seq<string>)
    requires multiset(a) == multiset(b)
    ensures |a| == |b| && forall x :: x in a <==> x in b
  {
    assert |a| == |multiset(a)| && |b| == |multiset(b)|;
    assert forall x :: x in a <==> x in multiset(a);
    assert forall x :: x in b <==> x in multiset(b);
  }

  function ToFront(s: seq<string>, i: nat): seq<string>
    requires i < |s|
  {
    [s[i]] + s[..i] + s[i + 1..]
  }

  lemma ToFrontPermutes(s: seq<string>, i: nat)
    requires i < |s|
    ensures multiset(ToFront(s, i)) == multiset(s)
  {
    assert s == s[..i] + [s[i]] + s[i + 1..];
  }

  /** For one name the order does not matter iff the prefixes matching it agree. */
  lemma OrderlessIffUnanimous(name: string, prefixes: seq<string>, depth: nat)
    ensures Orderless(name, prefixes, depth) <==> Unanimous(name, prefixes, depth)
  {
    hide Matches, Close;
    if Unanimous(name, prefixes, depth) {
      UnanimousMeans(name, prefixes, depth);
      forall other | multiset(other) == multiset(prefixes)
        ensures Selected(name, other, depth) <==> Selected(name, prefixes, depth)
      {
        SameElements(other, prefixes);
        UnanimousMeans(name, other, depth);
      }
    }
    if Orderless(name, prefixes, depth) {
      forall p, q | p in prefixes && q in prefixes && Matches(p, name) && Matches(q, name)
        ensures Close(name, p, depth) <==> Close(name, q, depth)
      {
        FirstDecides(name, prefixes, depth, p);
        FirstDecides(name, prefixes, depth, q);
      }
    }
  }

  /** Some order puts a matching prefix first, and then it decides. */
  lemma FirstDecides(name: string, prefixes: seq<string>, depth: nat, p: string)
    requires p in prefixes && Matches(p, name)
    ensures exists other :: multiset(other) == multiset(prefixes)
              && (Selected(name, other, depth) <==> Close(name, p, depth))
  {
    hide Matches;
    var i :| 0 <= i < |prefixes| && prefixes[i] == p;
    ToFrontPermutes(prefixes, i);
    assert ToFront(prefixes, i)[0] == p;
    assert Selected(name, ToFront(prefixes, i), depth) <==> Close(name, p, depth);
  }

  /** No prefix is above another one. */
  ghost predicate NoneNested(prefixes: seq<string>) {
    forall p, q :: p in prefixes && q in prefixes && Matches(p, q) ==> Depth(p) == Depth(q)
  }

  /** With a depth limit the order never matters, for any name, iff no prefix is above another one. */
  lemma OrderlessIffNoneNested(prefixes: seq<string>, depth: nat)
    requires depth > 0
    ensures (forall name :: name != "" ==> Orderless(name, prefixes, depth)) <==> NoneNested(prefixes)
  {
    hide Orderless;
    if NoneNested(prefixes) {
      forall name ensures Orderless(name, prefixes, depth) {
        NoneNestedAgree(prefixes, name, depth);
        OrderlessIffUnanimous(name, prefixes, depth);
      }
    }
    if !NoneNested(prefixes) {
      var p, q :| p in prefixes && q in prefixes && Matches(p, q) && Depth(p) != Depth(q);
      NestedDisagree(prefixes, p, q, depth);
    }
  }

  lemma NestedDisagree(prefixes: seq<string>, p: string, q: string, depth: nat)
    requires depth > 0 && p in prefixes && q in prefixes && Matches(p, q) && Depth(p) != Depth(q)
    ensures exists name :: name != "" && !Orderless(name, prefixes, depth)
  {
    hide Orderless, Matches, Close;
    assert Depth(p) < Depth(q) by { MatchesIsShorter(p, q); }
    var name := Separating(p, q, depth);
    OrderlessIffUnanimous(name, prefixes, depth);
  }

  lemma MatchesIsShorter(p: string, q: string)
    requires Matches(p, q)
    ensures Depth(p) <= Depth(q)
  {
  }

  lemma NoneNestedAgree(prefixes: seq<string>, name: string, depth: nat)
    requires NoneNested(prefixes)
    ensures Unanimous(name, prefixes, depth)
  {
    hide Tokens;
    forall p, q | p in prefixes && q in prefixes && Matches(p, name) && Matches(q, name)
      ensures Depth(p) == Depth(q)
    {
      var tokens := Tokens(name, DOT);
      assert Tokens(p, DOT) == tokens[..Depth(p)] && Tokens(q, DOT) == tokens[..Depth(q)];
      assert Matches(p, q) || Matches(q, p);
    }
  }

  /** A name below both of two nested prefixes that is close to the inner one only. */
  lemma Separating(p: string, q: string, depth: nat) returns (name: string)
    requires depth > 0 && Matches(p, q) && Depth(p) < Depth(q)
    ensures name != "" && Matches(p, name) && Matches(q, name)
    ensures Close(name, q, depth) && !Close(name, p, depth)
  {
    hide Tokens;
    var levels := Depth(p) + depth + 1;
    assert q != "" by { EmptyHasNoTokens(); }
    name := Below(q, if levels > Depth(q) then levels - Depth(q) else 0);
  }

  lemma EmptyHasNoTokens()
    ensures Tokens("", DOT) == []
  {
  }

  /** A name `n` levels below a prefix. */
  lemma {:induction false} Below(prefix: string, n: nat) returns (name: string)
    requires prefix != ""
    ensures name != "" && Matches(prefix, name) && Depth(name) == Depth(prefix) + n
  {
    hide Tokens;
    if n == 0 {
      name := prefix;
    } else {
      var above := Below(prefix, n - 1);
      name := Dotted(above) + "x";
      DottedTokens(above, "x");
      OneToken("x");
    }
  }

  /** The tokens of a name below a prefix. */
  lemma {:induction false} DottedTokens(prefix: string, rest: string)
    requires prefix != ""
    ensures Tokens(Dotted(prefix) + rest, DOT) == Tokens(prefix, DOT) + Tokens(rest, DOT)
    decreases |prefix|
  {
    hide Tokens;
    var k := FirstToken(prefix, DOT);
    if k == |prefix| {
      OneToken(prefix);
      TokensOf(prefix, rest);
      assert [prefix] + Tokens(rest, DOT) == Tokens(prefix, DOT) + Tokens(rest, DOT);
    } else {
      var t, q := prefix[..k], prefix[k + 1..];
      assert prefix == t + [DOT] + q;
      TokensOf(t, q);
      if q == "" {
        EmptyHasNoTokens();
        TokensOf(t, rest);
        assert Dotted(prefix) + rest == t + [DOT] + rest;
      } else {
        DottedTokens(q, rest);
        TokensOf(t, Dotted(q) + rest);
        assert Dotted(prefix) + rest == t + [DOT] + (Dotted(q) + rest);
        assert [t] + (Tokens(q, DOT) + Tokens(rest, DOT)) == [t] + Tokens(q, DOT) + Tokens(rest, DOT);
      }
    }
  }

  /** The smallest case: one prefix above another, a name two levels below the upper one. */
  lemma DepthDependsOnOrder()
    ensures !Selected("a.b.c", ["a", "a.b"], 1) && Selected("a.b.c", ["a.b", "a"], 1)
  {
    SampleTokens();
    hide Tokens;
    var name, outer, inner := Tokens("a.b.c", DOT), Tokens("a", DOT), Tokens("a.b", DOT);
    assert outer <= name && inner <= name;
    assert !Within("a.b.c", ["a", "a.b"], 1);
    assert Within("a.b.c", ["a.b", "a"], 1);
  }

  lemma SampleTokens()
    ensures Tokens("a", DOT) == ["a"] && Tokens("a.b", DOT) == ["a", "b"] && Tokens("a.b.c", DOT) == ["a", "b", "c"]
  {
    hide Tokens;
    assert "a" + [DOT] + "b.c" == "a.b.c" && "b" + [DOT] + "c" == "b.c" && "a" + [DOT] + "b" == "a.b";
    TokensOf("a", "b.c");
    TokensOf("b", "c");
    TokensOf("a", "b");
    OneToken("a");
    OneToken("b");
    OneToken("c");
  }

  lemma OneToken(s: string)
    requires s != "" && DOT !in s
    ensures Tokens(s, DOT) == [s]
  {
    FirstTokenAt(s, DOT, |s|);
  }

  lemma TokensOf(first: string, rest: string)
    requires DOT !in first
    ensures Tokens(first + [DOT] + rest, DOT) == [first] + Tokens(rest, DOT)
  {
    var s := first + [DOT] + rest;
    FirstTokenAt(s, DOT, |first|);
    assert s[..|first|] == first && s[|first| + 1..] == rest;
  }

  predicate EndsInDot(s: string) {
    s != "" && s[|s| - 1] == DOT
  }

  /** The prefix with the dot that separates it from what is below it. */
  function Dotted(prefix: string): string {
    if EndsInDot(prefix) then prefix else prefix + [DOT]
  }

  /** The prefix itself, as a name, is matched only in the form without a final dot. */
  predicate IsPrefixItself(prefix: string, name: string) {
    name != "" && !EndsInDot(name) && name + [DOT] == Dotted(prefix)
  }

  predicate IsBelow(prefix: string, name: string) {
    prefix == "" || Dotted(prefix) <= name || IsPrefixItself(prefix, name)
  }

  /** What a prefix matches, for every prefix and name. */
  lemma {:induction false} MatchesMeans(prefix: string, name: string)
    ensures Matches(prefix, name) <==> IsBelow(prefix, name)
    decreases |prefix|
  {
    hide IsBelow;
    if prefix == "" {
      EverythingIsBelow(name);
    } else {
      var k, n := FirstToken(prefix, DOT), FirstToken(name, DOT);
      if k == |prefix| {
        PlainMatches(prefix, name);
      } else if n == |name| {
        FlatMatches(prefix, name);
      } else {
        var t, q, u, r := prefix[..k], prefix[k + 1..], name[..n], name[n + 1..];
        assert prefix == t + [DOT] + q && name == u + [DOT] + r;
        MatchesMeans(q, r);
        NestedMatches(t, q, u, r);
      }
    }
  }

  lemma EverythingIsBelow(name: string)
    ensures Matches("", name) && IsBelow("", name)
  {
  }

  /** Both have a dot: the first tokens agree and the rests match. */
  lemma NestedMatches(t: string, q: string, u: string, r: string)
    requires DOT !in t && DOT !in u
    ensures Matches(t + [DOT] + q, u + [DOT] + r) <==> t == u && Matches(q, r)
    ensures IsBelow(t + [DOT] + q, u + [DOT] + r) <==> t == u && IsBelow(q, r)
  {
    TokensOf(t, q);
    TokensOf(u, r);
    var a, b := Tokens(q, DOT), Tokens(r, DOT);
    assert ([t] + a)[0] == t && ([u] + b)[0] == u && ([t] + a)[1..] == a && ([u] + b)[1..] == b;
    NestedIsBelow(t, q, u, r);
  }

  lemma SameHead(t: string, x: string, u: string, y: string)
    requires DOT !in t && DOT !in u
    ensures t + [DOT] + x <= u + [DOT] + y <==> t == u && x <= y
  {
    var a, b := t + [DOT] + x, u + [DOT] + y;
    if a <= b {
      FirstTokenAt(b, DOT, |t|);
      FirstTokenAt(b, DOT, |u|);
      assert t == a[..|t|] == b[..|u|] == u;
      assert x == a[|t| + 1..] && y == b[|t| + 1..];
    }
  }

  lemma NestedIsBelow(t: string, q: string, u: string, r: string)
    requires DOT !in t && DOT !in u
    ensures IsBelow(t + [DOT] + q, u + [DOT] + r) <==> t == u && IsBelow(q, r)
  {
    var p, n := t + [DOT] + q, u + [DOT] + r;
    var dotted := if q == "" then "" else Dotted(q);
    assert Dotted(p) == t + [DOT] + dotted;
    SameHead(t, dotted, u, r);
    assert Dotted(p) <= n <==> t == u && dotted <= r;
    assert n + [DOT] == u + [DOT] + (r + [DOT]);
    SameHead(t, dotted, u, r + [DOT]);
    SameHead(u, r + [DOT], t, dotted);
    assert n + [DOT] == Dotted(p) <==> t == u && r + [DOT] == dotted;
    assert EndsInDot(n) <==> r == "" || EndsInDot(r);
  }

  /** The name has no dot, the prefix has one. */
  lemma FlatMatches(prefix: string, name: string)
    requires FirstToken(prefix, DOT) < |prefix| && FirstToken(name, DOT) == |name|
    ensures Matches(prefix, name) <==> IsBelow(prefix, name)
  {
    var k := FirstToken(prefix, DOT);
    FlatTokens(prefix, name, k);
    FlatIsBelow(prefix, name, k);
  }

  lemma FlatTokens(prefix: string, name: string, k: nat)
    requires k == FirstToken(prefix, DOT) && k < |prefix| && FirstToken(name, DOT) == |name|
    ensures Matches(prefix, name) <==> k + 1 == |prefix| && name != "" && prefix[..k] == name
  {
    hide FirstToken;
    var t, q := prefix[..k], prefix[k + 1..];
    var tokens := Tokens(prefix, DOT);
    assert tokens == [t] + Tokens(q, DOT);
    assert tokens[0] == t && |tokens| == 1 + |Tokens(q, DOT)|;
    if name == "" {
      assert Tokens(name, DOT) == [];
    } else {
      assert Tokens(name, DOT) == [name];
    }
    if q == "" {
      assert Tokens(q, DOT) == [];
    } else {
      assert |Tokens(q, DOT)| > 0;
    }
  }

  lemma FlatIsBelow(prefix: string, name: string, k: nat)
    requires k < |prefix| && prefix[k] == DOT && DOT !in prefix[..k] && DOT !in name
    ensures IsBelow(prefix, name) <==> k + 1 == |prefix| && name != "" && prefix[..k] == name
  {
    assert Dotted(prefix)[k] == DOT && prefix <= Dotted(prefix);
    NoDotInside(Dotted(prefix), name, k);
    if k + 1 == |prefix| {
      assert Dotted(prefix) == prefix == prefix[..k] + [DOT];
      assert name + [DOT] == prefix[..k] + [DOT] <==> name == prefix[..k] by {
        SameHead(name, "", prefix[..k], "");
        assert name + [DOT] + "" == name + [DOT] && prefix[..k] + [DOT] + "" == prefix[..k] + [DOT];
      }
    }
  }

  lemma NoDotInside(dotted: string, plain: string, k: nat)
    requires k < |dotted| && dotted[k] == DOT && DOT !in plain
    ensures !(dotted <= plain) && (k + 1 < |dotted| ==> plain + [DOT] != dotted)
  {
    if k < |plain| {
      assert dotted[k] != plain[k] && (plain + [DOT])[k] == plain[k];
    }
  }

  /** The prefix is one token. */
  lemma PlainMatches(prefix: string, name: string)
    requires prefix != "" && FirstToken(prefix, DOT) == |prefix|
    ensures Matches(prefix, name) <==> IsBelow(prefix, name)
  {
    var n := FirstToken(name, DOT);
    PlainTokens(prefix, name, n);
    PlainIsBelow(prefix, name, n);
  }

  lemma PlainTokens(prefix: string, name: string, n: nat)
    requires prefix != "" && DOT !in prefix && n == FirstToken(name, DOT)
    ensures Matches(prefix, name) <==> name != "" && name[..n] == prefix
  {
    OneToken(prefix);
    hide FirstToken;
    if name != "" {
      var tokens := Tokens(name, DOT);
      assert tokens[0] == name[..n];
      assert [prefix] <= tokens <==> tokens[0] == prefix;
    }
  }

  lemma PlainIsBelow(prefix: string, name: string, n: nat)
    requires prefix != "" && DOT !in prefix && n == FirstToken(name, DOT)
    ensures IsBelow(prefix, name) <==> name != "" && name[..n] == prefix
  {
    assert Dotted(prefix) == prefix + [DOT];
    assert name + [DOT] == prefix + [DOT] <==> name == prefix by {
      if name + [DOT] == prefix + [DOT] {
        assert name == (name + [DOT])[..|name|] && prefix == (prefix + [DOT])[..|prefix|];
      }
    }
    if prefix + [DOT] <= name {
      FirstTokenAt(name, DOT, |prefix|);
      assert name[..|prefix|] == (prefix + [DOT])[..|prefix|];
    }
    if name == prefix {
      FirstTokenAt(name, DOT, |name|);
    }
    if n < |name| && name[..n] == prefix {
      assert name[..n + 1] == prefix + [DOT];
    }
  }

  // --- depth on the strings themselves ----------------------------------------------------------

  lemma NoDots(s: string)
    requires DOT !in s
    ensures multiset(s)[DOT] == 0
  {
    assert DOT !in multiset(s);
  }

  /** A name has one token more than dots, unless it is empty or ends in a dot. */
  lemma {:induction false} DepthByDots(name: string)
    ensures Depth(name) == multiset(name)['.'] + (if name == "" || name[|name| - 1] == '.' then 0 else 1)
    decreases |name|
  {
    hide Tokens;
    var k := FirstToken(name, DOT);
    if name == "" {
      EmptyHasNoTokens();
    } else if k == |name| {
      OneToken(name);
      NoDots(name);
    } else {
      var first, rest := name[..k], name[k + 1..];
      assert name == first + [DOT] + rest;
      assert multiset(name) == multiset(first) + multiset{DOT} + multiset(rest);
      NoDots(first);
      TokensOf(first, rest);
      DepthByDots(rest);
    }
  }

  /** Without prefixes and with a depth limit: a name is listed iff it has fewer dots than the limit; of a name that
      ends in a dot, that dot does not count. */
  lemma ListedByDots(name: string, depth: nat)
    ensures depth == 0 ==> Selected(name, [], depth)
    ensures depth > 0 && name != "" && name[|name| - 1] != '.' ==>
              (Selected(name, [], depth) <==> multiset(name)['.'] < depth)
    ensures depth > 0 && (name == "" || name[|name| - 1] == '.') ==>
              (Selected(name, [], depth) <==> multiset(name)['.'] <= depth)
  {
    hide Depth;
    DepthByDots(name);
  }

  /** The prefix is empty, or is followed in the name by a dot of its own or of the name, or is the whole name. */
  lemma PrefixMeans(prefix: string, name: string)
    ensures var dotted := if prefix != "" && prefix[|prefix| - 1] == '.' then prefix else prefix + ".";
            Matches(prefix, name) <==>
              || prefix == ""
              || dotted <= name
              || (name != "" && name[|name| - 1] != '.' && name + "." == dotted)
  {
    MatchesMeans(prefix, name);
  }

  /** How far a name is below a prefix that matches it: the tokens of what follows the prefix and its dot. */
  lemma CloseByDots(prefix: string, name: string, depth: nat)
    requires Matches(prefix, name) && depth > 0
    ensures var dotted := if prefix != "" && prefix[|prefix| - 1] == '.' then prefix else prefix + ".";
            var below := if prefix == "" then name else if dotted <= name then name[|dotted|..] else "";
            Close(name, prefix, depth) <==>
              multiset(below)['.'] + (if below == "" || below[|below| - 1] == '.' then 0 else 1) <= depth
  {
    hide Tokens;
    MatchesMeans(prefix, name);
    var dotted := Dotted(prefix);
    if prefix == "" {
      EmptyHasNoTokens();
      DepthByDots(name);
    } else if dotted <= name {
      var below := name[|dotted|..];
      assert name == dotted + below;
      DottedTokens(prefix, below);
      DepthByDots(below);
    } else {
      PrefixItself(prefix, name);
    }
  }

  lemma PrefixItself(prefix: string, name: string)
    requires prefix != "" && IsPrefixItself(prefix, name)
    ensures Depth(name) == Depth(prefix)
  {
    hide Depth;
    DepthByDots(name);
    DepthByDots(prefix);
    assert multiset(name + [DOT])[DOT] == multiset(name)[DOT] + 1;
    if !EndsInDot(prefix) {
      assert (prefix + [DOT])[..|prefix|] == prefix && (name + [DOT])[..|name|] == name;
    }
  }

  /** The first prefix in the request that matches decides; if none does, the name is not listed. */
  lemma {:induction false} FirstMatchDecides(name: string, prefixes: seq<string>, depth: nat)
    ensures Within(name, prefixes, depth) <==>
              exists i :: 0 <= i < |prefixes| && Matches(prefixes[i], name) && Close(name, prefixes[i], depth)
                && forall j :: 0 <= j < i ==> !Matches(prefixes[j], name)
  {
    hide Matches, Close;
    if prefixes != [] {
      var rest := prefixes[1..];
      FirstMatchDecides(name, rest, depth);
      if !Matches(prefixes[0], name) {
        if Within(name, rest, depth) {
          var i :| 0 <= i < |rest| && Matches(rest[i], name) && Close(name, rest[i], depth)
            && forall j :: 0 <= j < i ==> !Matches(rest[j], name);
          assert prefixes[i + 1] == rest[i] && forall j :: 0 < j < i + 1 ==> prefixes[j] == rest[j - 1];
        } else {
          forall i | 0 <= i < |prefixes| && Matches(prefixes[i], name)
                     && forall j :: 0 <= j < i ==> !Matches(prefixes[j], name)
            ensures !Close(name, prefixes[i], depth)
          {
            assert rest[i - 1] == prefixes[i] && forall j :: 0 <= j < i - 1 ==> rest[j] == prefixes[j + 1];
          }
        }
      }
    }
  }
}
