// ROS names, their DDS mangling, and what the graph observer makes of a DDS topic name. None stands for a thrown error.
module Names {
  import opened Wrappers

  predicate HasEmptyToken(s: string) {
    exists i :: 0 <= i < |s| - 1 && s[i] == '/' && s[i + 1] == '/'
  }

  /** What validate_fqn lets through. */
  predicate ValidFqn(s: string) {
    && s != "" && s[0] == '/'
    && (|s| > 1 ==> s[|s| - 1] != '/')
    && !HasEmptyToken(s)
  }

  function TopicName(fqn: string): Option<string> {
    if ValidFqn(fqn) then Some("rt" + fqn) else None
  }

  function RequestTopicName(fqn: string): Option<string> {
    if ValidFqn(fqn) then Some("rq" + fqn + "Request") else None
  }

  function ReplyTopicName(fqn: string): Option<string> {
    if ValidFqn(fqn) then Some("rr" + fqn + "Reply") else None
  }

  /** make_fq_node_name. */
  function NodeName(ns: string, name: string): Option<string> {
    if name == "" || '/' in name then None
    else if ns == "" || ns[0] != '/' || (|ns| > 1 && ns[|ns| - 1] == '/') then None
    else if ns == "/" then Some("/" + name)
    else Some(ns + "/" + name)
  }

  /** expand_topic_name. */
  function ExpandTopicName(topic: string, ns: string): Option<string> {
    if topic == "" then None
    else if topic[0] == '/' then Some(topic)
    else if '/' in topic then None
    else if ns == "/" || ns == "" then Some("/" + topic)
    else Some(ns + "/" + topic)
  }

  // --- properties of the names -------------------------------------------------------------

  /** Appending a token to a name keeps its validity, and does not make an invalid name valid. */
  lemma AppendToken(ns: string, token: string)
    requires ns != "" && token != "" && '/' !in token && ns != "/"
    ensures ValidFqn(ns + "/" + token) <==> ValidFqn(ns)
  {
    var s := ns + "/" + token;
    assert s[|s| - 1] == token[|token| - 1];
    if HasEmptyToken(s) {
      var i :| 0 <= i < |s| - 1 && s[i] == '/' && s[i + 1] == '/';
      assert i < |ns|;
      if i < |ns| - 1 {
        assert ns[i] == '/' && ns[i + 1] == '/';
      }
    }
    if HasEmptyToken(ns) {
      var i :| 0 <= i < |ns| - 1 && ns[i] == '/' && ns[i + 1] == '/';
      assert s[i] == '/' && s[i + 1] == '/';
    }
    if ns[|ns| - 1] == '/' {
      assert s[|ns| - 1] == '/' && s[|ns|] == '/';
    }
  }

  lemma RootToken(token: string)
    requires token != "" && '/' !in token
    ensures ValidFqn("/" + token)
  {
    var s := "/" + token;
    assert s[|s| - 1] == token[|token| - 1];
    assert forall i :: 0 <= i < |s| - 1 ==> s[i + 1] == token[i];
  }

  /** A node name is a valid fully qualified name iff its namespace has no empty token: make_fq_node_name does not
      check. */
  lemma NodeNameIsValid(ns: string, name: string)
    requires NodeName(ns, name).Some?
    ensures ValidFqn(NodeName(ns, name).value) <==> !HasEmptyToken(ns)
  {
    if ns == "/" {
      RootToken(name);
    } else {
      AppendToken(ns, name);
    }
  }

  /** A node name determines namespace and name. */
  lemma NodeNameIsInjective(ns1: string, name1: string, ns2: string, name2: string)
    requires NodeName(ns1, name1).Some? && NodeName(ns1, name1) == NodeName(ns2, name2)
    ensures ns1 == ns2 && name1 == name2
  {
    var s := NodeName(ns1, name1).value;
    var base1, base2 := if ns1 == "/" then "" else ns1, if ns2 == "/" then "" else ns2;
    assert s == base1 + "/" + name1 == base2 + "/" + name2;
    LastSlash(base1, name1, base2, name2);
  }

  lemma LastSlash(a: string, x: string, b: string, y: string)
    requires '/' !in x && '/' !in y && a + "/" + x == b + "/" + y
    ensures a == b && x == y
  {
    var s := a + "/" + x;
    assert s[|a|] == '/' && s[|b|] == '/';
    NoSlashAfter(a, x);
    NoSlashAfter(b, y);
    assert a == s[..|a|] && b == s[..|b|] && x == s[|a| + 1..] && y == s[|b| + 1..];
  }

  lemma NoSlashAfter(a: string, x: string)
    requires '/' !in x
    ensures forall i :: |a| < i < |a + "/" + x| ==> (a + "/" + x)[i] != '/'
  {
    forall i | |a| < i < |a + "/" + x| ensures (a + "/" + x)[i] != '/' {
      assert (a + "/" + x)[i] == x[i - |a| - 1];
    }
  }

  /** An expanded topic can be mangled iff what it was expanded from was valid. */
  lemma ExpandedIsValid(topic: string, ns: string)
    requires ExpandTopicName(topic, ns).Some?
    ensures TopicName(ExpandTopicName(topic, ns).value).Some? <==>
              if topic[0] == '/' then ValidFqn(topic) else ns == "" || ValidFqn(ns)
  {
    if topic[0] != '/' {
      if ns == "/" || ns == "" {
        RootToken(topic);
      } else {
        AppendToken(ns, topic);
      }
    }
  }

  // --- the observer's view of a DDS topic -----------------------------------------------------

  datatype EdgeKind = Topic | Service

  predicate StartsWith(s: string, prefix: string) {
    prefix <= s
  }

  predicate EndsWith(s: string, suffix: string) {
    |suffix| <= |s| && s[|s| - |suffix|..] == suffix
  }

  predicate IsPlumbing(ddsTopic: string) {
    || ddsTopic == "ros_discovery_info" || ddsTopic == "rt/rosout" || ddsTopic == "rt/parameter_events"
    || StartsWith(ddsTopic, "DCPS") || StartsWith(ddsTopic, "d*")
  }

  /** Name and kind of the edges a DDS topic gives rise to, if any. */
  function EdgeName(ddsTopic: string): Option<(string, EdgeKind)> {
    if IsPlumbing(ddsTopic) then None
    else if StartsWith(ddsTopic, "rq/") && |ddsTopic| > 10 && EndsWith(ddsTopic, "Request") then
      Some(("/" + ddsTopic[3..|ddsTopic| - 7], Service))
    else if StartsWith(ddsTopic, "rt/") && |ddsTopic| > 3 then Some(("/" + ddsTopic[3..], Topic))
    else None
  }

  /** For every valid name but the root, the observer undoes the mangling: topics except the plumbing ones and services
      are named as they were created, and reply topics give no edge. */
  lemma EdgeNameInvertsMangling(fqn: string)
    requires ValidFqn(fqn)
    ensures EdgeName(TopicName(fqn).value) ==
              if fqn == "/" || fqn == "/rosout" || fqn == "/parameter_events" then None else Some((fqn, Topic))
    ensures EdgeName(RequestTopicName(fqn).value) == if fqn == "/" then None else Some((fqn, Service))
    ensures EdgeName(ReplyTopicName(fqn).value) == None
  {
    hide EdgeName, HasEmptyToken;
    var rest := fqn[1..];
    assert fqn == "/" + rest;
    TopicEdge(rest);
    RequestEdge(rest);
    ReplyEdge(rest);
    SlashRest(fqn, rest, "rosout");
    SlashRest(fqn, rest, "parameter_events");
    SlashRest(fqn, rest, "");
    assert "rt" + fqn == "rt/" + rest;
    assert "rq" + fqn + "Request" == "rq/" + rest + "Request";
    assert "rr" + fqn + "Reply" == "rr/" + rest + "Reply";
  }

  /** Which DDS topics give an edge of which name: the mangled topics but the two plumbing ones, and the mangled request
      topics. The other names and prefixes that are excluded never come into it. */
  lemma EdgeNameMeans(ddsTopic: string, name: string)
    requires |name| > 1 && name[0] == '/'
    ensures EdgeName(ddsTopic) == Some((name, Topic)) <==>
              ddsTopic == "rt" + name && name != "/rosout" && name != "/parameter_events"
    ensures EdgeName(ddsTopic) == Some((name, Service)) <==> ddsTopic == "rq" + name + "Request"
  {
    hide EdgeName;
    var rest := name[1..];
    assert name == "/" + rest;
    SlashRest(name, rest, "rosout");
    SlashRest(name, rest, "parameter_events");
    assert "rt" + name == "rt/" + rest && "rq" + name + "Request" == "rq/" + rest + "Request";
    TopicEdge(rest);
    RequestEdge(rest);
    if EdgeName(ddsTopic).Some? {
      EdgeTopic(ddsTopic);
    }
  }

  /** Every edge name is below the root. */
  lemma EdgeNamesAreBelowRoot(ddsTopic: string)
    requires EdgeName(ddsTopic).Some?
    ensures |EdgeName(ddsTopic).value.0| > 1 && EdgeName(ddsTopic).value.0[0] == '/'
  {
  }

  /** What can be mangled and to what. */
  lemma MangledNames(fqn: string)
    ensures var valid := && |fqn| > 0 && fqn[0] == '/' && (fqn == "/" || fqn[|fqn| - 1] != '/')
                         && forall i :: 0 < i < |fqn| && fqn[i] == '/' ==> fqn[i - 1] != '/';
            && TopicName(fqn) == (if valid then Some("rt" + fqn) else None)
            && RequestTopicName(fqn) == (if valid then Some("rq" + fqn + "Request") else None)
            && ReplyTopicName(fqn) == (if valid then Some("rr" + fqn + "Reply") else None)
  {
    if HasEmptyToken(fqn) {
      var i :| 0 <= i < |fqn| - 1 && fqn[i] == '/' && fqn[i + 1] == '/';
      assert fqn[i + 1] == '/' && fqn[(i + 1) - 1] == '/';
    }
    if i :| 0 < i < |fqn| && fqn[i] == '/' && fqn[i - 1] == '/' {
      assert fqn[i - 1] == '/' && fqn[(i - 1) + 1] == '/';
    }
  }

  /** A node name is the namespace, a slash unless the namespace is the root, and the name. */
  lemma NodeNameMeans(ns: string, name: string)
    ensures NodeName(ns, name).Some? <==>
              && name != "" && '/' !in name
              && |ns| > 0 && ns[0] == '/' && (ns == "/" || ns[|ns| - 1] != '/')
    ensures NodeName(ns, name).Some? ==>
              var full := NodeName(ns, name).value;
              && |full| > |name| && full[|full| - |name|..] == name
              && full[..|full| - |name|] == if ns == "/" then ns else ns + "/"
  {
  }

  /** An absolute topic is kept, a relative one is put below the namespace, and one with a slash inside is refused. */
  lemma ExpandedTopic(topic: string, ns: string)
    requires topic != ""
    ensures topic[0] == '/' ==> ExpandTopicName(topic, ns) == Some(topic)
    ensures topic[0] != '/' ==> (ExpandTopicName(topic, ns).Some? <==> '/' !in topic)
    ensures topic[0] != '/' && '/' !in topic ==>
              var full := ExpandTopicName(topic, ns).value;
              && |full| > |topic| && full[|full| - |topic|..] == topic
              && full[..|full| - |topic|] == if ns == "" || ns == "/" then "/" else ns + "/"
  {
  }

  lemma SlashRest(fqn: string, rest: string, other: string)
    requires fqn == "/" + rest
    ensures fqn == "/" + other <==> rest == other
  {
    assert rest == fqn[1..] && other == ("/" + other)[1..];
  }

  lemma TopicEdge(rest: string)
    ensures EdgeName("rt/" + rest) ==
              if rest == "" || rest == "rosout" || rest == "parameter_events" then None else Some(("/" + rest, Topic))
  {
    var d := "rt/" + rest;
    assert d[0] == 'r' && d[1] == 't' && d[..3] == "rt/" && d[3..] == rest;
    assert d == "rt/rosout" <==> rest == "rosout" by {
      assert "rt/rosout"[3..] == "rosout";
    }
    assert d == "rt/parameter_events" <==> rest == "parameter_events" by {
      assert "rt/parameter_events"[3..] == "parameter_events";
    }
    assert "ros_discovery_info"[1] == 'o';
  }

  lemma RequestEdge(rest: string)
    ensures EdgeName("rq/" + rest + "Request") == if rest == "" then None else Some(("/" + rest, Service))
  {
    var d := "rq/" + rest + "Request";
    assert d[0] == 'r' && d[1] == 'q' && d[..3] == "rq/" && d[3..|d| - 7] == rest && d[|d| - 7..] == "Request";
    assert "ros_discovery_info"[1] == 'o' && "rt/rosout"[1] == 't' && "rt/parameter_events"[1] == 't';
    assert "rt/"[1] == 't';
  }

  lemma ReplyEdge(rest: string)
    ensures EdgeName("rr/" + rest + "Reply") == None
  {
    var d := "rr/" + rest + "Reply";
    assert d[1] == 'r' && "rt/"[1] == 't' && "rq/"[1] == 'q';
  }

  /** Different DDS topics never share an edge name of one kind. */
  lemma EdgeNameIsInjective(a: string, b: string)
    requires EdgeName(a).Some? && EdgeName(a) == EdgeName(b)
    ensures a == b
  {
    hide EdgeName;
    EdgeTopic(a);
    EdgeTopic(b);
  }

  /** The DDS topic an edge came from. */
  lemma EdgeTopic(d: string)
    requires EdgeName(d).Some?
    ensures var (name, kind) := EdgeName(d).value;
            name != "" && d == if kind == Topic then "rt/" + name[1..] else "rq/" + name[1..] + "Request"
  {
    var (name, kind) := EdgeName(d).value;
    if kind == Topic {
      assert d == d[..3] + d[3..];
    } else {
      assert d == d[..3] + d[3..|d| - 7] + d[|d| - 7..];
    }
  }

  // --- the enclave in a participant's user data ---------------------------------------------

  /** What a participant advertises. */
  function UserData(enclave: string): string {
    "enclave=" + enclave + ";"
  }

  predicate IsAt(text: string, part: string, i: nat) {
    i + |part| <= |text| && text[i..i + |part|] == part
  }

  /** std::string::find. */
  function FindText(text: string, part: string, start: nat): (r: Option<nat>)
    ensures r.None? ==> forall i :: start <= i <= |text| ==> !IsAt(text, part, i)
    ensures r.Some? ==> start <= r.value && IsAt(text, part, r.value)
                        && forall i :: start <= i < r.value ==> !IsAt(text, part, i)
    decreases |text| + 1 - start
  {
    if start > |text| then None
    else if IsAt(text, part, start) then Some(start)
    else FindText(text, part, start + 1)
  }

  function ParseEnclave(userData: string): string {
    var begin := FindText(userData, "enclave=", 0);
    if begin.None? then ""
    else
      var start := begin.value + 8;
      var semi := FindText(userData, ";", start);
      userData[start..if semi.Some? then semi.value else |userData|]
  }

  /** The enclave is what follows the first "enclave=", up to the next semicolon or the end; it is empty if there is
      none. */
  lemma EnclaveIsBetween(userData: string, begin: nat, end: nat)
    requires begin + 8 <= end <= |userData| && userData[begin..begin + 8] == "enclave="
    requires forall i, j :: 0 <= i < begin && j == i + 8 ==> userData[i..j] != "enclave="
    requires forall i :: begin + 8 <= i < end ==> userData[i] != ';'
    requires end == |userData| || userData[end] == ';'
    ensures ParseEnclave(userData) == userData[begin + 8..end]
  {
    hide FindText;
    assert IsAt(userData, "enclave=", begin);
    forall i | 0 <= i < begin ensures !IsAt(userData, "enclave=", i) {
      assert userData[i..i + 8] != "enclave=";
    }
    FirstIs(userData, "enclave=", 0, begin);
    SemicolonIs(userData, begin + 8, end);
  }

  lemma FirstIs(text: string, part: string, start: nat, at: nat)
    requires start <= at && IsAt(text, part, at) && forall i :: start <= i < at ==> !IsAt(text, part, i)
    ensures FindText(text, part, start) == Some(at)
  {
  }

  lemma SemicolonIs(text: string, start: nat, end: nat)
    requires start <= end <= |text| && (end == |text| || text[end] == ';')
    requires forall i :: start <= i < end ==> text[i] != ';'
    ensures FindText(text, ";", start) == if end == |text| then None else Some(end)
  {
    hide FindText;
    forall i | start <= i <= |text| && IsAt(text, ";", i) ensures i >= end && i < |text| {
      assert |";"| == 1 && text[i..i + 1] == ";";
      assert text[i] == text[i..i + 1][0] == ';';
    }
    if end < |text| {
      assert text[end..end + 1] == ";";
      FirstIs(text, ";", start, end);
    }
  }

  lemma NoEnclave(userData: string)
    requires forall i, j :: 0 <= i && j == i + 8 && j <= |userData| ==> userData[i..j] != "enclave="
    ensures ParseEnclave(userData) == ""
  {
    hide FindText;
    forall i | 0 <= i <= |userData| ensures !IsAt(userData, "enclave=", i) {
      assert i + 8 <= |userData| ==> userData[i..i + 8] != "enclave=";
    }
  }

  /** The observer reads back exactly the name a node advertised, since node names have no semicolon; otherwise what
      precedes the first one. */
  lemma EnclaveRoundTrip(enclave: string)
    ensures ParseEnclave(UserData(enclave)) == enclave <==> ';' !in enclave
  {
    var s := UserData(enclave);
    assert s[..8] == "enclave=" && IsAt(s, "enclave=", 0);
    assert FindText(s, "enclave=", 0) == Some(0);
    assert forall i :: 8 <= i < 8 + |enclave| ==> s[i] == enclave[i - 8];
    assert s[8 + |enclave|] == ';' && s[8 + |enclave|..8 + |enclave| + 1] == ";";
    var semi := FindText(s, ";", 8);
    assert IsAt(s, ";", 8 + |enclave|);
    assert semi.Some? && semi.value <= 8 + |enclave|;
    assert s[semi.value..semi.value + 1][0] == s[semi.value];
    if ';' in enclave {
      var i :| 0 <= i < |enclave| && enclave[i] == ';';
      assert s[8 + i..8 + i + 1] == ";";
      assert IsAt(s, ";", 8 + i);
    } else {
      assert s[8..8 + |enclave|] == enclave;
    }
  }
}
