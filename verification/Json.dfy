// JSON string literals and arrays of them, as the snapshot writer builds them, and a reader per RFC 8259.
module Json {
  import opened Wrappers

  const QUOTE: char := '\"'
  const BACKSLASH: char := '\\'
  const BACKSPACE: char := 8 as char
  const FORM_FEED: char := 12 as char
  const HEX := "0123456789abcdef"

  // --- the reader: sections 2, 5 and 7 of RFC 8259 ---------------------------------------------

  function HexValue(c: char): Option<nat> {
    if '0' <= c <= '9' then Some(c as nat - '0' as nat)
    else if 'a' <= c <= 'f' then Some(c as nat - 'a' as nat + 10)
    else if 'A' <= c <= 'F' then Some(c as nat - 'A' as nat + 10)
    else None
  }

  /** Four hexadecimal digits; the surrogate range does not name a character by itself. */
  function ReadHex(s: string): (r: Option<char>)
    requires |s| >= 4
  {
    var a, b, c, d := HexValue(s[0]), HexValue(s[1]), HexValue(s[2]), HexValue(s[3]);
    if a.None? || b.None? || c.None? || d.None? then None
    else
      var v := a.value * 4096 + b.value * 256 + c.value * 16 + d.value;
      if v < 0xD800 || 0xE000 <= v < 0x10000 then Some(v as char) else None
  }

  function Simple(c: char): Option<char> {
    if c == QUOTE || c == BACKSLASH || c == '/' then Some(c)
    else if c == 'b' then Some(BACKSPACE)
    else if c == 'f' then Some(FORM_FEED)
    else if c == 'n' then Some('\n')
    else if c == 'r' then Some('\r')
    else if c == 't' then Some('\t')
    else None
  }

  /** One character of a literal, and how much text it took. */
  function ReadChar(s: string): (r: Option<(char, nat)>)
    ensures r.Some? ==> 0 < r.value.1 <= |s|
  {
    if s == "" || s[0] == QUOTE || s[0] < ' ' then None
    else if s[0] != BACKSLASH then Some((s[0], 1))
    else if |s| < 2 then None
    else if s[1] == 'u' then
      if |s| < 6 then None
      else
        var c := ReadHex(s[2..6]);
        if c.None? then None else Some((c.value, 6))
    else
      var c := Simple(s[1]);
      if c.None? then None else Some((c.value, 2))
  }

  /** The rest of a literal after its opening quote, and the text after it. */
  function ReadBody(s: string): (r: Option<(string, string)>)
    ensures r.Some? ==> |r.value.1| < |s|
    decreases |s|
  {
    if s != "" && s[0] == QUOTE then Some(("", s[1..]))
    else
      var c := ReadChar(s);
      if c.None? then None
      else
        var more := ReadBody(s[c.value.1..]);
        if more.None? then None else Some(([c.value.0] + more.value.0, more.value.1))
  }

  function ReadString(s: string): (r: Option<(string, string)>)
    ensures r.Some? ==> |r.value.1| < |s|
  {
    if s == "" || s[0] != QUOTE then None else ReadBody(s[1..])
  }

  function SkipSpace(s: string): (r: string)
    ensures |r| <= |s|
  {
    if s != "" && (s[0] == ' ' || s[0] == '\t' || s[0] == '\n' || s[0] == '\r') then SkipSpace(s[1..]) else s
  }

  /** The elements of an array of strings from the first on, up to the closing bracket. */
  function ReadElements(s: string): (r: Option<(seq<string>, string)>)
    decreases |s|
  {
    var first := ReadString(SkipSpace(s));
    if first.None? then None
    else
      var after := SkipSpace(first.value.1);
      if after == "" then None
      else if after[0] == ']' then Some(([first.value.0], after[1..]))
      else if after[0] != ',' then None
      else
        var more := ReadElements(after[1..]);
        if more.None? then None else Some(([first.value.0] + more.value.0, more.value.1))
  }

  function ReadArray(s: string): Option<(seq<string>, string)> {
    var open := SkipSpace(s);
    if open == "" || open[0] != '[' then None
    else
      var inner := SkipSpace(open[1..]);
      if inner != "" && inner[0] == ']' then Some(([], inner[1..])) else ReadElements(inner)
  }

  // --- the writer --------------------------------------------------------------------------------

  function Escape(c: char): string {
    if c == QUOTE then [BACKSLASH, QUOTE]
    else if c == BACKSLASH then [BACKSLASH, BACKSLASH]
    else if c == BACKSPACE then [BACKSLASH, 'b']
    else if c == FORM_FEED then [BACKSLASH, 'f']
    else if c == '\n' then [BACKSLASH, 'n']
    else if c == '\r' then [BACKSLASH, 'r']
    else if c == '\t' then [BACKSLASH, 't']
    else if c < ' ' then [BACKSLASH, 'u', '0', '0', HEX[c as nat / 16], HEX[c as nat % 16]]
    else [c]
  }

  function EscapeAll(s: string): string {
    if s == "" then "" else EscapeAll(s[..|s| - 1]) + Escape(s[|s| - 1])
  }

  function Literal(s: string): string {
    [QUOTE] + EscapeAll(s) + [QUOTE]
  }

  /** The switch over one character. */
  method AppendEscaped(before: string, c: char) returns (out: string)
    ensures out == before + Escape(c)
  {
    if c == QUOTE {
      out := before + [BACKSLASH, QUOTE];
    } else if c == BACKSLASH {
      out := before + [BACKSLASH, BACKSLASH];
    } else if c == BACKSPACE {
      out := before + [BACKSLASH, 'b'];
    } else if c == FORM_FEED {
      out := before + [BACKSLASH, 'f'];
    } else if c == '\n' {
      out := before + [BACKSLASH, 'n'];
    } else if c == '\r' {
      out := before + [BACKSLASH, 'r'];
    } else if c == '\t' {
      out := before + [BACKSLASH, 't'];
    } else if c < ' ' {
      out := before + ([BACKSLASH, 'u', '0', '0'] + [HEX[c as nat / 16]] + [HEX[c as nat % 16]]);
    } else {
      out := before + [c];
    }
  }

  /** `json_escape_string`. */
  method EscapeString(s: string) returns (out: string)
    ensures out == Literal(s)
  {
    hide Escape;
    out := [QUOTE];
    for i := 0 to |s|
      invariant out == [QUOTE] + EscapeAll(s[..i])
    {
      assert s[..i + 1][..i] == s[..i];
      out := AppendEscaped(out, s[i]);
    }
    assert s[..|s|] == s;
    out := out + [QUOTE];
  }

  function Joined(names: seq<string>): string {
    if names == [] then ""
    else if |names| == 1 then Literal(names[0])
    else Joined(names[..|names| - 1]) + "," + Literal(names[|names| - 1])
  }

  /** `dump_names`; the names of a std::set come in ascending order. */
  method DumpNames(names: seq<string>) returns (list: string)
    ensures list == "[" + Joined(names) + "]"
  {
    hide Literal;
    list := "[";
    var inner := true;
    for i := 0 to |names|
      invariant list == "[" + Joined(names[..i]) && inner == (i == 0)
    {
      assert names[..i + 1][..i] == names[..i];
      var literal := EscapeString(names[i]);
      list := list + if inner then "" else ",";
      list := list + literal;
      inner := false;
    }
    assert names[..|names|] == names;
    list := list + "]";
  }

  /** What the writer puts for each character: the short escapes, six characters for any other control character, and
      the character itself otherwise. */
  lemma EscapeTable(c: char)
    ensures Escape('\"') == "\\\"" && Escape('\\') == "\\\\"
    ensures Escape(8 as char) == "\\b" && Escape(12 as char) == "\\f"
    ensures Escape('\n') == "\\n" && Escape('\r') == "\\r" && Escape('\t') == "\\t"
    ensures c >= ' ' && c != '\"' && c != '\\' ==> Escape(c) == [c]
    ensures c < ' ' && c !in [8 as char, 9 as char, 10 as char, 12 as char, 13 as char] ==>
              Escape(c) == "\\u00" + ["0123456789abcdef"[c as nat / 16], "0123456789abcdef"[c as nat % 16]]
  {
    assert '\t' == 9 as char && '\n' == 10 as char && '\r' == 13 as char;
  }

  /** What the reader makes of the escapes, per section 7 of RFC 8259. */
  lemma ReaderTable(rest: string)
    ensures ReadChar("\\\"" + rest) == Some(('\"', 2)) && ReadChar("\\\\" + rest) == Some(('\\', 2))
    ensures ReadChar("\\/" + rest) == Some(('/', 2))
    ensures ReadChar("\\b" + rest) == Some((8 as char, 2)) && ReadChar("\\f" + rest) == Some((12 as char, 2))
    ensures ReadChar("\\n" + rest) == Some((10 as char, 2)) && ReadChar("\\r" + rest) == Some((13 as char, 2))
    ensures ReadChar("\\t" + rest) == Some((9 as char, 2))
  {
    assert '\t' == 9 as char && '\n' == 10 as char && '\r' == 13 as char;
  }

  /** Four hexadecimal digits in either case, the most significant first. */
  lemma ReadHexMeans(a: nat, b: nat, c: nat, d: nat)
    requires a < 16 && b < 16 && c < 16 && d < 16
    requires var v := 0x1000 * a + 0x100 * b + 0x10 * c + d; v < 0xD800 || 0xE000 <= v
    ensures ReadHex([HEX[a], HEX[b], HEX[c], HEX[d]]) == Some((0x1000 * a + 0x100 * b + 0x10 * c + d) as char)
    ensures HexValue("0123456789ABCDEF"[a]) == HexValue("0123456789abcdef"[a]) == Some(a)
  {
    hide HexValue;
    HexDigits(a);
    HexDigits(b);
    HexDigits(c);
    HexDigits(d);
    UpperCase(a);
  }

  lemma UpperCase(d: nat)
    requires d < 16
    ensures HexValue("0123456789ABCDEF"[d]) == Some(d)
  {
  }

  // --- what is written is read back ------------------------------------------------------------------

  lemma ReadEscaped(c: char, rest: string)
    ensures ReadChar(Escape(c) + rest) == Some((c, |Escape(c)|))
    ensures Escape(c) != "" && Escape(c)[0] != QUOTE && Escape(c)[0] >= ' '
  {
    hide ReadHex;
    var s := Escape(c) + rest;
    if c < ' ' && |Escape(c)| == 6 {
      var high, low := HEX[c as nat / 16], HEX[c as nat % 16];
      assert s[2..6] == ['0', '0', high, low];
      ReadsControl(c);
    }
  }

  lemma ReadsControl(c: char)
    requires c < ' '
    ensures ReadHex(['0', '0', HEX[c as nat / 16], HEX[c as nat % 16]]) == Some(c)
  {
    hide HexValue;
    HexDigits(0);
    HexDigits(c as nat / 16);
    HexDigits(c as nat % 16);
  }

  lemma HexDigits(d: nat)
    requires d < 16
    ensures HexValue(HEX[d]) == Some(d)
  {
  }

  lemma {:induction false} EscapeAllFirst(s: string)
    requires s != ""
    ensures EscapeAll(s) == Escape(s[0]) + EscapeAll(s[1..])
  {
    hide Escape;
    if |s| == 1 {
      assert s[..0] == "" && s[1..] == "";
    } else {
      var most, last := s[..|s| - 1], Escape(s[|s| - 1]);
      EscapeAllFirst(most);
      assert most[1..] == s[1..][..|s| - 2] && most[0] == s[0];
      assert EscapeAll(s) == EscapeAll(most) + last && EscapeAll(s[1..]) == EscapeAll(most[1..]) + last;
    }
  }

  /** The reader takes exactly the literal and returns the string, whatever follows. */
  lemma {:induction false} BodyReadsBack(s: string, rest: string)
    ensures ReadBody(EscapeAll(s) + [QUOTE] + rest) == Some((s, rest))
    decreases |s|
  {
    hide Escape, ReadChar;
    var text := EscapeAll(s) + [QUOTE] + rest;
    if s == "" {
      assert text == [QUOTE] + rest && text[1..] == rest;
    } else {
      EscapeAllFirst(s);
      var e, tail := Escape(s[0]), EscapeAll(s[1..]) + [QUOTE] + rest;
      assert text == e + tail;
      ReadEscaped(s[0], tail);
      BodyReadsBack(s[1..], rest);
      assert text[|e|..] == tail && text[0] == e[0];
      assert [s[0]] + s[1..] == s;
    }
  }

  lemma LiteralReadsBack(s: string, rest: string)
    ensures ReadString(Literal(s) + rest) == Some((s, rest))
  {
    hide ReadBody, EscapeAll, Escape;
    BodyReadsBack(s, rest);
    assert (Literal(s) + rest)[1..] == EscapeAll(s) + [QUOTE] + rest;
  }

  /** Different strings never share a literal, not even as a prefix. */
  lemma LiteralIsInjective(a: string, x: string, b: string, y: string)
    requires Literal(a) + x == Literal(b) + y
    ensures a == b && x == y
  {
    hide ReadString, Literal;
    LiteralReadsBack(a, x);
    LiteralReadsBack(b, y);
  }

  lemma {:induction false} JoinedFirst(names: seq<string>)
    requires |names| > 1
    ensures Joined(names) == Literal(names[0]) + "," + Joined(names[1..])
  {
    hide Literal;
    var most := names[..|names| - 1];
    if |names| == 2 {
      assert most == [names[0]] && names[1..] == [names[1]];
    } else {
      JoinedFirst(most);
      assert most[1..] == names[1..][..|names| - 2];
    }
  }

  lemma {:induction false} ElementsReadBack(names: seq<string>, rest: string)
    requires names != []
    ensures ReadElements(Joined(names) + "]" + rest) == Some((names, rest))
    decreases |names|
  {
    hide Literal, ReadElements, SkipSpace;
    var text := Joined(names) + "]" + rest;
    if |names| == 1 {
      assert text == Literal(names[0]) + ("]" + rest) && ("]" + rest)[1..] == rest;
      FirstElement(names[0], "]" + rest);
      assert names == [names[0]];
    } else {
      var tail := Joined(names[1..]) + "]" + rest;
      JoinedFirst(names);
      assert text == Literal(names[0]) + ("," + tail) && ("," + tail)[1..] == tail;
      FirstElement(names[0], "," + tail);
      ElementsReadBack(names[1..], rest);
      assert names == [names[0]] + names[1..];
    }
  }

  /** One element and what decides how the array goes on. */
  lemma FirstElement(first: string, after: string)
    requires after != "" && (after[0] == ']' || after[0] == ',')
    ensures ReadElements(Literal(first) + after) ==
              if after[0] == ']' then Some(([first], after[1..]))
              else
                var more := ReadElements(after[1..]);
                if more.None? then None else Some(([first] + more.value.0, more.value.1))
  {
    hide Literal, ReadString;
    LiteralReadsBack(first, after);
    LiteralIsDense(first, after);
  }

  lemma LiteralIsDense(s: string, rest: string)
    ensures SkipSpace(Literal(s) + rest) == Literal(s) + rest
    ensures |Literal(s)| > 0 && Literal(s)[0] == QUOTE
  {
  }

  /** The name arrays of a snapshot parse back to the same list. */
  lemma NamesReadBack(names: seq<string>, rest: string)
    ensures ReadArray("[" + Joined(names) + "]" + rest) == Some((names, rest))
  {
    hide Literal, ReadElements;
    var text := "[" + Joined(names) + "]" + rest;
    assert SkipSpace(text) == text;
    if names == [] {
      assert text[1..] == "]" + rest && (text[1..])[1..] == rest;
    } else {
      ElementsReadBack(names, rest);
      var inner := Joined(names) + "]" + rest;
      assert text[1..] == inner;
      JoinedIsDense(names, "]" + rest);
      assert Joined(names) + ("]" + rest) == inner;
    }
  }

  lemma JoinedIsDense(names: seq<string>, rest: string)
    requires names != []
    ensures SkipSpace(Joined(names) + rest) == Joined(names) + rest
    ensures (Joined(names) + rest)[0] == QUOTE
  {
    hide Literal;
    if |names| == 1 {
      LiteralIsDense(names[0], rest);
    } else {
      JoinedFirst(names);
      LiteralIsDense(names[0], "," + Joined(names[1..]) + rest);
    }
  }
}
