/** Printing label sets in the Prometheus text format, and reading them back. */
module PrometheusLabels {
  import opened Seqs

  // --- Escaping -------------------------------------------------------------------

  function Replace(s: string, c: char, sub: string): string {
    if s == "" then "" else (if s[0] == c then sub else [s[0]]) + Replace(s[1..], c, sub)
  }

  // Three replacements, one after the other.
  function Escape(s: string): string {
    Replace(Replace(Replace(s, '\\', "\\\\"), '\"', "\\\""), '\n', "\\n")
  }

  function EscapeChar(c: char): string {
    if c == '\\' then "\\\\" else if c == '\"' then "\\\"" else if c == '\n' then "\\n" else [c]
  }

  function EscapeEach(s: string): string {
    if s == "" then "" else EscapeChar(s[0]) + EscapeEach(s[1..])
  }

  lemma Associative(a: string, b: string, c: string)
    ensures (a + b) + c == a + (b + c)
  {
  }

  lemma {:induction false} ReplaceAppend(a: string, b: string, c: char, sub: string)
    ensures Replace(a + b, c, sub) == Replace(a, c, sub) + Replace(b, c, sub)
  {
    if a == "" {
      assert a + b == b;
    } else {
      ReplaceAppend(a[1..], b, c, sub);
      assert (a + b)[1..] == a[1..] + b;
      Associative(if a[0] == c then sub else [a[0]], Replace(a[1..], c, sub), Replace(b, c, sub));
    }
  }

  lemma ReplaceOne(d: char, c: char, sub: string)
    ensures Replace([d], c, sub) == if d == c then sub else [d]
  {
    assert [d][1..] == "";
  }

  lemma ReplaceTwo(d: char, e: char, c: char, sub: string)
    requires d != c && e != c
    ensures Replace([d, e], c, sub) == [d, e]
  {
    assert [d, e] == [d] + [e];
    ReplaceAppend([d], [e], c, sub);
    ReplaceOne(d, c, sub);
    ReplaceOne(e, c, sub);
  }

  lemma EscapeOne(c: char)
    ensures Escape([c]) == EscapeChar(c)
  {
    ReplaceOne(c, '\\', "\\\\");
    ReplaceOne(c, '\"', "\\\"");
    ReplaceOne(c, '\n', "\\n");
    ReplaceTwo('\\', '\\', '\"', "\\\"");
    ReplaceTwo('\\', '\\', '\n', "\\n");
    ReplaceTwo('\\', '\"', '\n', "\\n");
  }

  /** The three escapes, and nothing else changes. */
  lemma EscapesAre(c: char)
    ensures Escape("\\") == "\\\\" && Escape("\"") == "\\\"" && Escape("\n") == "\\n"
    ensures c !in {'\\', '\"', '\n'} ==> Escape([c]) == [c]
  {
    EscapeOne('\\');
    EscapeOne('\"');
    EscapeOne('\n');
    EscapeOne(c);
  }

  lemma EscapeAppend(a: string, b: string)
    ensures Escape(a + b) == Escape(a) + Escape(b)
  {
    var a1, b1 := Replace(a, '\\', "\\\\"), Replace(b, '\\', "\\\\");
    ReplaceAppend(a, b, '\\', "\\\\");
    ReplaceAppend(a1, b1, '\"', "\\\"");
    ReplaceAppend(Replace(a1, '\"', "\\\""), Replace(b1, '\"', "\\\""), '\n', "\\n");
  }

  /** The three passes amount to one escape per character: the later ones never
      touch what the earlier ones inserted. */
  lemma {:induction false} EscapeIsPerCharacter(s: string)
    ensures Escape(s) == EscapeEach(s)
  {
    if s != "" {
      assert s == [s[0]] + s[1..];
      EscapeAppend([s[0]], s[1..]);
      EscapeOne(s[0]);
      EscapeIsPerCharacter(s[1..]);
    }
  }

  // --- Reading a quoted value ---------------------------------------------------------

  // What `\x` stands for.
  function Unescaped(x: char): Option<char> {
    if x == '\\' then Some('\\') else if x == '\"' then Some('\"') else if x == 'n' then Some('\n') else None
  }

  /** Reads up to the closing quote; gives the value and what follows the quote. */
  function ReadValue(s: string): (r: Option<(string, string)>)
    ensures r.Some? ==> |r.value.1| < |s|
  {
    if s == "" || s[0] == '\n' then None
    else if s[0] == '\"' then Some(("", s[1..]))
    else if s[0] == '\\' then
      if |s| < 2 || Unescaped(s[1]).None? then None
      else
        match ReadValue(s[2..])
        case None => None
        case Some((v, rest)) => Some(([Unescaped(s[1]).value] + v, rest))
    else
      match ReadValue(s[1..])
      case None => None
      case Some((v, rest)) => Some(([s[0]] + v, rest))
  }

  lemma ReadOneEscaped(c: char, tail: string, v: string, rest: string)
    requires ReadValue(tail) == Some((v, rest))
    ensures ReadValue(EscapeChar(c) + tail) == Some(([c] + v, rest))
  {
    var s := EscapeChar(c) + tail;
    if |EscapeChar(c)| == 2 {
      assert s[0] == '\\' && s[2..] == tail;
    } else {
      assert s[0] == c && s[1..] == tail;
    }
  }

  /** Unescaping undoes escaping for every string. */
  lemma {:induction false} ReadUndoesEscape(v: string, rest: string)
    ensures ReadValue(Escape(v) + "\"" + rest) == Some((v, rest))
  {
    EscapeIsPerCharacter(v);
    if v == "" {
      assert (Escape(v) + "\"" + rest)[1..] == rest;
    } else {
      EscapeIsPerCharacter(v[1..]);
      var tail := Escape(v[1..]) + "\"" + rest;
      ReadUndoesEscape(v[1..], rest);
      ReadOneEscaped(v[0], tail, v[1..], rest);
      Associative(EscapeChar(v[0]), Escape(v[1..]), "\"" + rest);
      assert Escape(v) + "\"" + rest == EscapeChar(v[0]) + tail;
      assert v == [v[0]] + v[1..];
    }
  }

  // --- Label blocks -------------------------------------------------------------------

  type Labels = seq<(string, string)>

  function Part(item: (string, string)): string {
    item.0 + "=\"" + Escape(item.1) + "\""
  }

  function Join(labels: Labels): string
    requires labels != []
  {
    if |labels| == 1 then Part(labels[0]) else Part(labels[0]) + "," + Join(labels[1..])
  }

  function FmtLabels(labels: Labels): string {
    if labels == [] then "" else "{" + Join(labels) + "}"
  }

  lemma JoinMore(item: (string, string), more: Labels)
    requires more != []
    ensures Join([item] + more) == item.0 + "=\"" + Escape(item.1) + "\"" + "," + Join(more)
  {
    assert ([item] + more)[1..] == more;
  }

  lemma Unbraced(s: string)
    ensures var t := "{" + s + "}"; t[1..|t| - 1] == s
  {
  }

  /** The format itself: braces around `name="value"` items with commas between them. */
  lemma FormatIs(item: (string, string), more: Labels)
    ensures FmtLabels([]) == ""
    ensures FmtLabels([item]) == "{" + (item.0 + "=\"" + Escape(item.1) + "\"") + "}"
    ensures more != [] ==>
              && |FmtLabels(more)| >= 2
              && FmtLabels([item] + more) ==
                 "{" + (item.0 + "=\"" + Escape(item.1) + "\"" + "," + FmtLabels(more)[1..|FmtLabels(more)| - 1]) + "}"
  {
    if more != [] {
      JoinMore(item, more);
      Unbraced(Join(more));
    }
  }

  predicate IsNameChar(c: char) {
    'a' <= c <= 'z' || 'A' <= c <= 'Z' || '0' <= c <= '9' || c == '_'
  }

  predicate IsName(s: string) {
    s != "" && !('0' <= s[0] <= '9') && forall i :: 0 <= i < |s| ==> IsNameChar(s[i])
  }

  ghost predicate Named(labels: Labels) {
    forall i :: 0 <= i < |labels| ==> IsName(labels[i].0)
  }

  function ReadName(s: string): (r: (string, string))
    ensures |r.1| <= |s|
  {
    if s == "" || !IsNameChar(s[0]) then ("", s)
    else var (name, rest) := ReadName(s[1..]); ([s[0]] + name, rest)
  }

  lemma {:induction false} ReadNameStops(name: string, rest: string)
    requires forall i :: 0 <= i < |name| ==> IsNameChar(name[i])
    requires rest != "" && !IsNameChar(rest[0])
    ensures ReadName(name + rest) == (name, rest)
  {
    if name == "" {
      assert name + rest == rest;
    } else {
      ReadNameStops(name[1..], rest);
      assert (name + rest)[1..] == name[1..] + rest;
      assert name == [name[0]] + name[1..];
    }
  }

  // The labels of a block whose opening brace has been read.
  function ParseList(s: string): Option<Labels>
    decreases |s|
  {
    var (name, after) := ReadName(s);
    if |after| < 2 || after[0] != '=' || after[1] != '\"' then None
    else
      match ReadValue(after[2..])
      case None => None
      case Some((v, rest)) =>
        if rest == "}" then Some([(name, v)])
        else if rest == "" || rest[0] != ',' then None
        else
          match ParseList(rest[1..])
          case None => None
          case Some(more) => Some([(name, v)] + more)
  }

  function Parse(s: string): Option<Labels> {
    if s == "" then Some([]) else if s[0] == '{' then ParseList(s[1..]) else None
  }

  lemma ReadPart(item: (string, string), rest: string)
    requires IsName(item.0)
    ensures var s := Part(item) + rest;
            var after := "=\"" + Escape(item.1) + "\"" + rest;
            ReadName(s) == (item.0, after) && ReadValue(after[2..]) == Some((item.1, rest))
  {
    var after := "=\"" + Escape(item.1) + "\"" + rest;
    assert Part(item) + rest == item.0 + after;
    ReadNameStops(item.0, after);
    ReadUndoesEscape(item.1, rest);
    assert after[2..] == Escape(item.1) + "\"" + rest;
  }

  lemma ParseNext(item: (string, string), list: string, more: Labels)
    requires IsName(item.0) && ParseList(list) == Some(more)
    ensures ParseList(Part(item) + ("," + list)) == Some([item] + more)
  {
    var rest := "," + list;
    ReadPart(item, rest);
    assert rest[0] == ',' && rest[1..] == list;
    assert item == (item.0, item.1);
  }

  lemma ParseLast(item: (string, string))
    requires IsName(item.0)
    ensures ParseList(Part(item) + "}") == Some([item])
  {
    ReadPart(item, "}");
    assert item == (item.0, item.1);
  }

  lemma {:induction false} ParseListUndoesJoin(labels: Labels)
    requires labels != [] && Named(labels)
    ensures ParseList(Join(labels) + "}") == Some(labels)
  {
    if |labels| == 1 {
      ParseLast(labels[0]);
      assert labels == [labels[0]];
    } else {
      ParseListUndoesJoin(labels[1..]);
      ParseNext(labels[0], Join(labels[1..]) + "}", labels[1..]);
      Associative(Part(labels[0]) + ",", Join(labels[1..]), "}");
      Associative(Part(labels[0]), ",", Join(labels[1..]) + "}");
      assert labels == [labels[0]] + labels[1..];
    }
  }

  /** A printed label block parses back, whatever the values contain. */
  lemma ParseUndoesFmt(labels: Labels)
    requires Named(labels)
    ensures Parse(FmtLabels(labels)) == Some(labels)
  {
    if labels != [] {
      ParseListUndoesJoin(labels);
      assert FmtLabels(labels)[1..] == Join(labels) + "}";
    }
  }

  /** So two different label tuples never print alike. */
  lemma FmtIsInjective(a: Labels, b: Labels)
    requires Named(a) && Named(b) && FmtLabels(a) == FmtLabels(b)
    ensures a == b
  {
    ParseUndoesFmt(a);
    ParseUndoesFmt(b);
  }
}
