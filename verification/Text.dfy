// Strings as std::string orders and splits them, and sets of strings in iteration order.
module Text {
  /** operator< of std::string. */
  predicate Less(a: string, b: string) {
    b != "" && (a == "" || a[0] < b[0] || (a[0] == b[0] && Less(a[1..], b[1..])))
  }

  lemma {:induction false} LessIrreflexive(a: string)
    ensures !Less(a, a)
  {
    if a != "" {
      LessIrreflexive(a[1..]);
    }
  }

  lemma {:induction false} LessTransitive(a: string, b: string, c: string)
    requires Less(a, b) && Less(b, c)
    ensures Less(a, c)
  {
    if a != "" && a[0] == b[0] == c[0] {
      LessTransitive(a[1..], b[1..], c[1..]);
    }
  }

  lemma {:induction false} LessTotal(a: string, b: string)
    ensures a == b || Less(a, b) || Less(b, a)
  {
    if a != "" && b != "" && a[0] == b[0] {
      LessTotal(a[1..], b[1..]);
      assert a == [a[0]] + a[1..] && b == [b[0]] + b[1..];
    }
  }

  /** Up to some index the strings agree, and there the smaller one ends or has the smaller character. */
  lemma LessMeans(a: string, b: string)
    ensures Less(a, b) <==>
              exists k :: 0 <= k <= |a| && k < |b| && a[..k] == b[..k] && (k == |a| || a[k] < b[k])
  {
    if Less(a, b) {
      var k := FirstDifference(a, b);
      assert a[..k] == b[..k];
    }
    forall k | 0 <= k <= |a| && k < |b| && a[..k] == b[..k] && (k == |a| || a[k] < b[k]) ensures Less(a, b) {
      DifferenceDecides(a, b, k);
    }
  }

  lemma {:induction false} FirstDifference(a: string, b: string) returns (k: nat)
    requires Less(a, b)
    ensures k <= |a| && k < |b| && a[..k] == b[..k] && (k == |a| || a[k] < b[k])
  {
    if a == "" || a[0] < b[0] {
      k := 0;
    } else {
      var rest := FirstDifference(a[1..], b[1..]);
      k := rest + 1;
      assert a[..k] == [a[0]] + a[1..][..rest] && b[..k] == [b[0]] + b[1..][..rest];
    }
  }

  lemma {:induction false} DifferenceDecides(a: string, b: string, k: nat)
    requires k <= |a| && k < |b| && a[..k] == b[..k] && (k == |a| || a[k] < b[k])
    ensures Less(a, b)
  {
    if k > 0 {
      assert a[0] == a[..k][0] == b[..k][0] == b[0];
      assert a[1..][..k - 1] == a[..k][1..] && b[1..][..k - 1] == b[..k][1..];
      DifferenceDecides(a[1..], b[1..], k - 1);
    }
  }

  ghost predicate Ascending(s: seq<string>) {
    forall i, j :: 0 <= i < j < |s| ==> Less(s[i], s[j])
  }

  lemma SameEmptiness(s: seq<string>, t: seq<string>)
    requires forall x :: x in s <==> x in t
    ensures |s| == 0 <==> |t| == 0
  {
    if |t| > 0 {
      assert t[0] in s;
    }
    if |s| > 0 {
      assert s[0] in t;
    }
  }

  /** A strictly ascending list is determined by its elements. */
  lemma {:induction false} AscendingIsUnique(s: seq<string>, t: seq<string>)
    requires Ascending(s) && Ascending(t) && forall x :: x in s <==> x in t
    ensures s == t
  {
    SameEmptiness(s, t);
    if s == [] {
    } else {
      assert s[0] in t && (t != [] ==> t[0] in s);
      var i :| 0 <= i < |t| && t[i] == s[0];
      var j :| 0 <= j < |s| && s[j] == t[0];
      if i > 0 && j > 0 {
        LessTransitive(s[0], t[0], s[0]);
        LessIrreflexive(s[0]);
      }
      assert s[0] == t[0];
      forall x ensures x in s[1..] <==> x in t[1..] {
        RestOfAscending(s, x);
        RestOfAscending(t, x);
      }
      AscendingIsUnique(s[1..], t[1..]);
    }
  }

  lemma RestOfAscending(s: seq<string>, x: string)
    requires Ascending(s) && s != []
    ensures x in s[1..] <==> x in s && x != s[0]
  {
    LessIrreflexive(s[0]);
    if x in s && x != s[0] {
      var i :| 0 <= i < |s| && s[i] == x;
      assert s[1..][i - 1] == x;
    }
  }

  /** Where a new element goes. */
  function Position(s: seq<string>, x: string): (k: nat)
    ensures k <= |s|
    ensures forall i :: 0 <= i < k ==> Less(s[i], x)
    ensures k < |s| ==> !Less(s[k], x)
  {
    if s == [] || !Less(s[0], x) then 0 else 1 + Position(s[1..], x)
  }

  lemma InsertedIsAscending(s: seq<string>, x: string)
    requires Ascending(s) && x !in s
    ensures var k := Position(s, x);
            Ascending(s[..k] + [x] + s[k..])
  {
    var k := Position(s, x);
    forall i | k <= i < |s| ensures Less(x, s[i]) {
      LessTotal(x, s[k]);
      if i > k {
        LessTransitive(x, s[k], s[i]);
      }
    }
  }

  /** The elements of a std::set (or the keys of a std::map) in iteration order. */
  method InOrder(s: set<string>) returns (r: seq<string>)
    ensures Ascending(r) && forall x :: x in r <==> x in s
  {
    r := [];
    var todo := s;
    while todo != {}
      invariant todo <= s && Ascending(r) && forall x :: x in r <==> x in s - todo
      decreases |todo|
    {
      var x :| x in todo;
      todo := todo - {x};
      InsertedIsAscending(r, x);
      var k := Position(r, x);
      assert forall y :: y in r <==> y in r[..k] || y in r[k..] by {
        assert r == r[..k] + r[k..];
      }
      r := r[..k] + [x] + r[k..];
    }
  }

  /** Index of the first `c` at or after `start`, or the length. */
  method Find(s: string, c: char, start: nat) returns (k: nat)
    requires start <= |s|
    ensures start <= k <= |s| && (k < |s| ==> s[k] == c)
    ensures forall i :: start <= i < k ==> s[i] != c
  {
    k := start;
    while k < |s| && s[k] != c
      invariant start <= k <= |s|
      invariant forall i :: start <= i < k ==> s[i] != c
    {
      k := k + 1;
    }
  }

  /** The first token: everything before the first separator. */
  function FirstToken(s: string, c: char): (k: nat)
    ensures k <= |s| && (k < |s| ==> s[k] == c)
    ensures forall i :: 0 <= i < k ==> s[i] != c
  {
    if s == "" || s[0] == c then 0 else 1 + FirstToken(s[1..], c)
  }

  /** What repeated std::getline yields: no token after a final separator. */
  function Tokens(s: string, c: char): seq<string>
    decreases |s|
  {
    if s == "" then []
    else
      var k := FirstToken(s, c);
      if k == |s| then [s] else [s[..k]] + Tokens(s[k + 1..], c)
  }

  method Tokenize(s: string, c: char) returns (parts: seq<string>)
    ensures parts == Tokens(s, c)
  {
    parts := [];
    var pos := 0;
    while pos < |s|
      invariant 0 <= pos <= |s| && parts + Tokens(s[pos..], c) == Tokens(s, c)
      decreases |s| - pos
    {
      var k := Find(s, c, pos);
      NextToken(s, c, pos, k);
      parts := parts + [s[pos..k]];
      pos := if k < |s| then k + 1 else k;
    }
  }

  lemma NextToken(s: string, c: char, pos: nat, k: nat)
    requires pos < |s| && pos <= k <= |s| && (k < |s| ==> s[k] == c) && forall i :: pos <= i < k ==> s[i] != c
    ensures Tokens(s[pos..], c) == [s[pos..k]] + Tokens(s[if k < |s| then k + 1 else k..], c)
  {
    hide FirstToken, Tokens;
    var rest := s[pos..];
    FirstTokenAt(rest, c, k - pos);
    assert s[pos..k] == rest[..k - pos];
    TokensUnfold(rest, c);
    if k < |s| {
      assert s[k + 1..] == rest[k - pos + 1..];
    } else {
      assert rest[..k - pos] == rest && s[k..] == "";
      NoTokens(c);
    }
  }

  lemma NoTokens(c: char)
    ensures Tokens("", c) == []
  {
  }

  lemma TokensUnfold(s: string, c: char)
    requires s != ""
    ensures var k := FirstToken(s, c);
            Tokens(s, c) == if k == |s| then [s] else [s[..k]] + Tokens(s[k + 1..], c)
  {
    hide FirstToken;
  }

  lemma FirstTokenAt(s: string, c: char, k: nat)
    requires k <= |s| && (k < |s| ==> s[k] == c) && forall i :: 0 <= i < k ==> s[i] != c
    ensures FirstToken(s, c) == k
  {
  }
}
