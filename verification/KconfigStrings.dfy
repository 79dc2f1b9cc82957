// Quoted strings of Kconfig text (tools/kconfiglib.py): escape writes them, unescape and the
// tokenizer's _expand_str read them.
module KconfigStrings {
  // str.replace for a single character
  function Replace(s: string, c: char, text: string): string {
    if s == [] then [] else (if s[0] == c then text else [s[0]]) + Replace(s[1..], c, text)
  }

  // The backslash pass comes first.
  function Escape(s: string): string { Replace(Replace(s, '\\', "\\\\"), '"', "\\\"") }

  function EscapedChar(c: char): string { if c == '\\' || c == '"' then ['\\', c] else [c] }

  lemma {:induction false} ReplaceAppend(a: string, b: string, c: char, text: string)
    ensures Replace(a + b, c, text) == Replace(a, c, text) + Replace(b, c, text)
  {
    if a == [] {
      assert a + b == b;
    } else {
      assert (a + b)[1..] == a[1..] + b;
      ReplaceAppend(a[1..], b, c, text);
    }
  }

  // The two passes treat every character by itself.
  lemma {:induction false} EscapeFirst(s: string)
    requires s != []
    ensures Escape(s) == EscapedChar(s[0]) + Escape(s[1..])
  {
    var c := s[0];
    var head := if c == '\\' then "\\\\" else [c];
    ReplaceAppend(head, Replace(s[1..], '\\', "\\\\"), '"', "\\\"");
    assert c != '\\' ==> head[1..] == [];
    assert head == "\\\\" ==> head[1..] == "\\" && head[1..][1..] == [];
    assert Replace([], '"', "\\\"") == [];
    assert Replace(head, '"', "\\\"") == EscapedChar(c);
  }

  // re.sub(r"\\(.)", r"\1"): the dot does not match a newline.
  function Unescape(s: string): string
    decreases |s|
  {
    if s == [] then []
    else if |s| > 1 && s[0] == '\\' && s[1] != '\n' then [s[1]] + Unescape(s[2..])
    else [s[0]] + Unescape(s[1..])
  }

  lemma UnescapeFirst(c: char, rest: string)
    ensures Unescape(EscapedChar(c) + rest) == [c] + Unescape(rest)
  {
    var e := EscapedChar(c) + rest;
    if c == '\\' || c == '"' { assert e[2..] == rest; } else { assert e[1..] == rest; }
  }

  // What is written to a .config file is read back.
  lemma {:induction false} EscapeThenUnescape(s: string)
    ensures Unescape(Escape(s)) == s
  {
    if s != [] {
      EscapeFirst(s);
      EscapeThenUnescape(s[1..]);
      hide Escape;
      var rest := Escape(s[1..]);
      assert Unescape(EscapedChar(s[0]) + rest) == [s[0]] + Unescape(rest) by { UnescapeFirst(s[0], rest); }
      assert s == [s[0]] + s[1..];
    }
  }

  // What no backslash stands in
  predicate NoBackslash(s: string) { '\\' !in s }

  // In any text a backslash gives way to the character behind it, unless that is the end of the line
  // or there is none.
  lemma {:induction false} UnescapeLaws(a: string, c: char, b: string)
    requires NoBackslash(a)
    ensures Unescape(a) == a && Unescape(a + "\\") == a + "\\"
    ensures Unescape(a + ['\\', c] + b) == if c == '\n' then a + ['\\', c] + Unescape(b) else a + [c] + Unescape(b)
  {
    hide Unescape;
    if a == [] {
      UnescapeHere(c, b);
      assert a + "\\" == "\\" && a + ['\\', c] + b == ['\\', c] + b && a + [c] == [c];
    } else {
      assert a[0] in a && forall x :: x in a[1..] ==> x in a;
      UnescapeLaws(a[1..], c, b);
      UnescapeOn(a, []);
      UnescapeOn(a, "\\");
      UnescapeOn(a, ['\\', c] + b);
      Joined(a, ['\\', c], b);
      UnescapeSum(a, c, b);
      assert a == [a[0]] + a[1..];
    }
  }

  lemma UnescapeSum(a: string, c: char, b: string)
    requires a != []
    ensures [a[0]] + (a[1..] + "\\") == a + "\\"
    ensures [a[0]] + (a[1..] + ['\\', c] + Unescape(b)) == a + ['\\', c] + Unescape(b)
    ensures [a[0]] + (a[1..] + [c] + Unescape(b)) == a + [c] + Unescape(b)
  {
    assert a == [a[0]] + a[1..];
  }

  lemma UnescapeHere(c: char, b: string)
    ensures Unescape([]) == [] && Unescape("\\") == "\\"
    ensures Unescape(['\\', c] + b) == if c == '\n' then ['\\', c] + Unescape(b) else [c] + Unescape(b)
  {
    var t := ['\\', c] + b;
    assert "\\"[1..] == [];
    assert t[2..] == b && t[1..] == [c] + b && t[1..][1..] == b;
  }

  lemma UnescapeOn(a: string, b: string)
    requires a != [] && a[0] != '\\'
    ensures Unescape(a + b) == [a[0]] + Unescape(a[1..] + b)
    ensures a + [] == a && a[1..] + [] == a[1..]
  {
    assert (a + b)[1..] == a[1..] + b;
  }

  lemma Joined(a: string, m: string, b: string)
    requires a != []
    ensures a + m + b == a + (m + b) && a[1..] + m + b == a[1..] + (m + b)
  {}

  // ----- The tokenizer -----

  // The text of a quoted string and what follows it; or no closing quote; or a macro call, whose
  // expansion is not part of this model.
  datatype Scanned = Text(text: string, rest: string) | Unterminated | Macro

  predicate MacroAt(s: string) { |s| > 1 && s[0] == '$' && s[1] == '(' }

  function Prefixed(c: char, r: Scanned): Scanned { if r.Text? then Text([c] + r.text, r.rest) else r }

  // _expand_str behind the opening quote
  function Scan(s: string, quote: char): Scanned
    decreases |s|
  {
    if s == [] then Unterminated
    else if s[0] == quote then Text([], s[1..])
    else if s[0] == '\\' then (if |s| == 1 then Unterminated else Prefixed(s[1], Scan(s[2..], quote)))
    else if MacroAt(s) then Macro
    else Prefixed(s[0], Scan(s[1..], quote))
  }

  predicate HasMacro(s: string) { s != [] && (MacroAt(s) || HasMacro(s[1..])) }

  // _expand_str scans an escaped text in quotes back to that text exactly if it has no "$(" in it,
  // which escape does not protect. What the tokenizer makes of environment variables in the result
  // is another matter.
  lemma {:induction false} QuotedRoundTrip(s: string, rest: string)
    ensures Scan(Escape(s) + ['"'] + rest, '"') == if HasMacro(s) then Macro else Text(s, rest)
  {
    var t := Escape(s) + ['"'] + rest;
    if s == [] {
      assert t == ['"'] + rest && t[1..] == rest;
    } else {
      EscapeFirst(s);
      QuotedRoundTrip(s[1..], rest);
      if s[0] == '$' { SameMacro(s, rest); }
      hide Escape, EscapedChar, Scan;
      var e, b := EscapedChar(s[0]), Escape(s[1..]) + ['"'] + rest;
      assert t == e + b;
      ScanEscaped(s[0], b);
      assert s == [s[0]] + s[1..];
    }
  }

  lemma ScanEscaped(c: char, b: string)
    ensures
      Scan(EscapedChar(c) + b, '"') ==
        if c == '$' && MacroAt(EscapedChar(c) + b) then Macro else Prefixed(c, Scan(b, '"'))
  {
    var t := EscapedChar(c) + b;
    assert t[|EscapedChar(c)|..] == b;
  }

  // A macro call stands behind the escape where one stood before it.
  lemma SameMacro(s: string, rest: string)
    requires s != [] && s[0] == '$'
    ensures MacroAt(EscapedChar(s[0]) + (Escape(s[1..]) + ['"'] + rest)) <==> MacroAt(s)
  {
    if |s| > 1 { EscapeFirst(s[1..]); } else { assert Escape(s[1..]) == []; }
    hide Escape;
  }

  // What the scanner passes over
  predicate Plain(a: string, quote: char) { NoBackslash(a) && quote !in a && '$' !in a }

  // In any text the scanner ends at the first quote of its kind that no backslash protects, takes
  // what a backslash protects as it is, stops at a macro call, and reports a string without an end.
  lemma {:induction false} ScanLaws(a: string, c: char, b: string, quote: char)
    requires Plain(a, quote) && quote != '\\' && quote != '$'
    ensures Scan(a, quote) == Unterminated && Scan(a + "\\", quote) == Unterminated
    ensures Scan(a + [quote] + b, quote) == Text(a, b)
    ensures Scan(a + ['\\', c] + b, quote) == Put(a + [c], Scan(b, quote))
    ensures Scan(a + "$(" + b, quote) == Macro
    ensures c != '(' && c != quote && c != '$' && c != '\\' ==>
        Scan(a + ['$', c] + b, quote) == Put(a + ['$', c], Scan(b, quote))
  {
    hide Scan, Put, Prefixed;
    if a == [] {
      ScanHere(c, b, quote);
      assert a + "\\" == "\\" && a + [quote] + b == [quote] + b && a + ['\\', c] + b == ['\\', c] + b;
      assert a + "$(" + b == "$(" + b && a + ['$', c] + b == ['$', c] + b;
      assert a + [c] == [c] && a + ['$', c] == ['$', c];
    } else {
      assert a[0] in a && forall x :: x in a[1..] ==> x in a;
      ScanLaws(a[1..], c, b, quote);
      ScanOn(a, "\\", quote);
      ScanOn(a, [], quote);
      ScanOn(a, [quote] + b, quote);
      ScanOn(a, ['\\', c] + b, quote);
      ScanOn(a, "$(" + b, quote);
      ScanOn(a, ['$', c] + b, quote);
      Joined(a, [quote], b);
      Joined(a, ['\\', c], b);
      Joined(a, "$(", b);
      Joined(a, ['$', c], b);
      PutOn(a[0], a[1..] + [c], Scan(b, quote));
      PutOn(a[0], a[1..] + ['$', c], Scan(b, quote));
      assert a == [a[0]] + a[1..];
      assert [a[0]] + (a[1..] + [c]) == a + [c] && [a[0]] + (a[1..] + ['$', c]) == a + ['$', c];
    }
  }

  lemma PutOn(c: char, done: string, r: Scanned)
    ensures Prefixed(c, Put(done, r)) == Put([c] + done, r)
  {
    if r.Text? { assert [c] + (done + r.text) == [c] + done + r.text; }
  }

  // One plain character
  lemma ScanOn(a: string, b: string, quote: char)
    requires a != [] && a[0] != quote && a[0] != '\\' && a[0] != '$'
    ensures Scan(a + b, quote) == Prefixed(a[0], Scan(a[1..] + b, quote))
    ensures Prefixed(a[0], Unterminated) == Unterminated && Prefixed(a[0], Macro) == Macro
    ensures forall t, r :: Prefixed(a[0], Text(t, r)) == Text([a[0]] + t, r)
    ensures a + [] == a && a[1..] + [] == a[1..]
  {
    assert (a + b)[1..] == a[1..] + b;
  }

  lemma ScanHere(c: char, b: string, quote: char)
    requires quote != '\\' && quote != '$'
    ensures Scan([], quote) == Unterminated && Scan("\\", quote) == Unterminated
    ensures Scan([quote] + b, quote) == Text([], b)
    ensures Scan(['\\', c] + b, quote) == Put([c], Scan(b, quote))
    ensures Scan("$(" + b, quote) == Macro
    ensures c != '(' && c != quote && c != '$' && c != '\\' ==>
        Scan(['$', c] + b, quote) == Put(['$', c], Scan(b, quote))
  {
    assert ([quote] + b)[1..] == b && (['\\', c] + b)[2..] == b;
    var t := ['$', c] + b;
    assert t[1..] == [c] + b && t[1..][1..] == b;
    PutOn('$', [c], Scan(b, quote));
    assert ['$'] + [c] == ['$', c];
  }

  // What _expand_str has made of the string so far
  predicate Progress(s: string, i: nat, start: nat, goal: Scanned, quote: char) {
    && start < i <= |s|
    && goal == Put(s[start + 1..i], Scan(s[i..], quote))
  }

  function Put(done: string, r: Scanned): Scanned { if r.Text? then Text(done + r.text, r.rest) else r }

  // The string with its escapes resolved in place, and the index behind the closing quote
  method ExpandStr(s: string, start: nat) returns (r: Scanned, line: string, end: nat)
    requires start < |s|
    ensures r == Scan(s[start + 1..], s[start])
    ensures r.Text? ==> line == s[..start + 1] + r.text + [s[start]] + r.rest && end == start + 2 + |r.text|
  {
    var quote := s[start];
    var i := start + 1;
    line := s;
    ghost var goal := Scan(s[start + 1..], quote);
    assert s[start + 1..start + 1] == [];
    while true
      invariant Progress(line, i, start, goal, quote) && line[..start + 1] == s[..start + 1]
      decreases |line| - i
    {
      if i == |line| { return Unterminated, line, i; }
      if line[i] == quote {
        ghost var text := line[start + 1..i];
        assert text + [] == text;
        assert line == line[..start + 1] + text + [quote] + line[i..][1..];
        return Text(line[start + 1..i], line[i + 1..]), line, i + 1;
      } else if line[i] == '\\' {
        if i + 1 == |line| { return Unterminated, line, i; }
        Resolve(line, i, start, goal, quote);
        line := line[..i] + line[i + 1..];
        i := i + 1;
      } else if i + 1 < |line| && line[i] == '$' && line[i + 1] == '(' {
        assert MacroAt(line[i..]);
        return Macro, line, i;
      } else {
        Advance(line, i, start, goal, quote);
        i := i + 1;
      }
    }
  }

  lemma PutPrefixed(done: string, c: char, r: Scanned)
    ensures Put(done, Prefixed(c, r)) == Put(done + [c], r)
  {
    if r.Text? { assert done + ([c] + r.text) == done + [c] + r.text; }
  }

  lemma Resolve(s: string, i: nat, start: nat, goal: Scanned, quote: char)
    requires Progress(s, i, start, goal, quote) && i + 1 < |s| && s[i] == '\\' && quote != '\\'
    ensures Progress(s[..i] + s[i + 1..], i + 1, start, goal, quote)
  {
    var e := s[..i] + s[i + 1..];
    assert s[i..][2..] == e[i + 1..] == s[i + 2..];
    assert e[start + 1..i + 1] == s[start + 1..i] + [s[i + 1]];
    PutPrefixed(s[start + 1..i], s[i + 1], Scan(s[i + 2..], quote));
  }

  lemma Advance(s: string, i: nat, start: nat, goal: Scanned, quote: char)
    requires Progress(s, i, start, goal, quote) && i < |s| && s[i] != quote && s[i] != '\\' && !MacroAt(s[i..])
    ensures Progress(s, i + 1, start, goal, quote)
  {
    assert s[i..][1..] == s[i + 1..];
    assert s[start + 1..i + 1] == s[start + 1..i] + [s[i]];
    PutPrefixed(s[start + 1..i], s[i], Scan(s[i + 1..], quote));
  }
}
