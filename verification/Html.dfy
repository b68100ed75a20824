/** HTML at character level: escaping, printing a token, and a scanner that
    reads tokens back out of text. Strings are byte strings; a char is a byte. */
module Html {
  import opened Common

  datatype Attr = Attr(name: string, value: string)

  /** Payloads are what the text means, not how it is escaped. */
  datatype Token = Text(s: string) | Open(tag: string, attrs: seq<Attr>) | Close(tag: string)

  // ----- escaping -----

  function EscChar(c: char): string {
    match c
    case '&' => "&amp;"
    case '\'' => "&#39;"
    case '<' => "&lt;"
    case '>' => "&gt;"
    case '"' => "&#34;"
    case _ => [c]
  }

  /** html.EscapeString. */
  function Esc(s: string): string {
    if s == "" then "" else EscChar(s[0]) + Esc(s[1..])
  }

  /** The character an entity starting here stands for, and its length. */
  function Entity(s: string): (char, nat)
    requires s != ""
    ensures 1 <= Entity(s).1 <= |s|
  {
    if "&amp;" <= s then ('&', 5)
    else if "&#39;" <= s then ('\'', 5)
    else if "&lt;" <= s then ('<', 4)
    else if "&gt;" <= s then ('>', 4)
    else if "&#34;" <= s then ('"', 5)
    else (s[0], 1)
  }

  function Unesc(s: string): string {
    if s == "" then "" else [Entity(s).0] + Unesc(s[Entity(s).1..])
  }

  lemma EntityOfEscaped(c: char, rest: string)
    ensures Entity(EscChar(c) + rest) == (c, |EscChar(c)|)
  {
    var s := EscChar(c) + rest;
    assert EscChar(c) <= s;
    assert s[0] == EscChar(c)[0];
    if |EscChar(c)| > 1 {
      assert s[1] == EscChar(c)[1];
      assert s[2] == EscChar(c)[2] && s[3] == EscChar(c)[3];
    }
  }

  /** Escaping loses nothing. */
  lemma {:induction false} UnescEsc(s: string)
    ensures Unesc(Esc(s)) == s
  {
    if s != "" {
      EntityOfEscaped(s[0], Esc(s[1..]));
      assert Esc(s)[|EscChar(s[0])|..] == Esc(s[1..]);
      UnescEsc(s[1..]);
    }
  }

  /** Escaping is character by character. */
  lemma {:induction false} EscAppend(a: string, b: string)
    ensures Esc(a + b) == Esc(a) + Esc(b)
  {
    if a == "" {
      assert a + b == b;
    } else {
      var first, rest := EscChar(a[0]), Esc(a[1..]);
      assert (a + b)[1..] == a[1..] + b;
      EscAppend(a[1..], b);
      calc {
        Esc(a + b);
        first + Esc(a[1..] + b);
        first + (rest + Esc(b));
        { Assoc(first, rest, Esc(b)); }
        first + rest + Esc(b);
      }
    }
  }

  /** Nothing escaped can open or close a tag or end a quoted attribute. */
  lemma {:induction false} EscClean(s: string)
    ensures Free(Esc(s), '<') && Free(Esc(s), '>') && Free(Esc(s), '"') && Free(Esc(s), '\'')
  {
    if s != "" { EscClean(s[1..]); }
  }

  /** The five characters that are escaped, and how; all others stay. */
  lemma EscChars(c: char)
    ensures Esc("&") == "&amp;" && Esc("<") == "&lt;" && Esc(">") == "&gt;"
    ensures Esc("'") == "&#39;" && Esc("\"") == "&#34;"
    ensures c !in "&<>'\"" ==> Esc([c]) == [c]
  {
    EscOne('&');
    EscOne('<');
    EscOne('>');
    EscOne('\'');
    EscOne('"');
    EscOne(c);
    if c !in "&<>'\"" { EscOther(c); }
  }

  lemma EscOne(c: char)
    ensures Esc([c]) == EscChar(c)
  {
    assert [c][1..] == "" && EscChar(c) + "" == EscChar(c);
  }

  lemma EscOther(c: char)
    requires c !in "&<>'\""
    ensures EscChar(c) == [c]
  {
    var s := "&<>'\"";
    assert s[0] == '&' && s[1] == '<' && s[2] == '>' && s[3] == '\'' && s[4] == '"';
  }

  predicate Plain(s: string) {
    Free(s, '<') && Free(s, '>') && Free(s, '"') && Free(s, '\'') && Free(s, '&')
  }

  lemma {:induction false} EscPlain(s: string)
    requires Plain(s)
    ensures Esc(s) == s
  {
    if s != "" { EscPlain(s[1..]); }
  }

  // ----- printing -----

  function PrintAttrs(attrs: seq<Attr>): string {
    if attrs == [] then ""
    else " " + attrs[0].name + "=\"" + Esc(attrs[0].value) + "\"" + PrintAttrs(attrs[1..])
  }

  function Print(t: Token): string {
    match t
    case Text(s) => Esc(s)
    case Open(tag, attrs) => "<" + tag + PrintAttrs(attrs) + ">"
    case Close(tag) => "</" + tag + ">"
  }

  function PrintAll(ts: seq<Token>): string {
    if ts == [] then "" else Print(ts[0]) + PrintAll(ts[1..])
  }

  lemma {:induction false} PrintAppend(a: seq<Token>, b: seq<Token>)
    ensures PrintAll(a + b) == PrintAll(a) + PrintAll(b)
  {
    if a == [] {
      assert a + b == b;
    } else {
      var first, rest := Print(a[0]), PrintAll(a[1..]);
      assert (a + b)[1..] == a[1..] + b;
      PrintAppend(a[1..], b);
      calc {
        PrintAll(a + b);
        first + PrintAll(a[1..] + b);
        first + (rest + PrintAll(b));
        { Assoc(first, rest, PrintAll(b)); }
        first + rest + PrintAll(b);
      }
    }
  }

  predicate NameChar(c: char) {
    c != '<' && c != '>' && c != '"' && c != '\'' && c != '=' && c != '/' && c != ' '
  }

  predicate Name(s: string) { s != "" && forall i :: 0 <= i < |s| ==> NameChar(s[i]) }

  predicate GoodToken(t: Token) {
    match t
    case Text(_) => true
    case Open(tag, attrs) => Name(tag) && forall i :: 0 <= i < |attrs| ==> Name(attrs[i].name)
    case Close(tag) => Name(tag)
  }

  predicate Good(ts: seq<Token>) { forall i :: 0 <= i < |ts| ==> GoodToken(ts[i]) }

  // ----- scanning -----

  datatype Mode =
    | InText(raw: string)
    | TagStart
    | InClose(tag: string)
    | InName(tag: string)
    | InAttrName(tag: string, attrs: seq<Attr>, name: string)
    | BeforeQuote(tag: string, attrs: seq<Attr>, name: string)
    | InValue(tag: string, attrs: seq<Attr>, name: string, raw: string)
    | AfterValue(tag: string, attrs: seq<Attr>)
    | Malformed

  datatype Scanner = Scanner(out: seq<Token>, mode: Mode)

  function Flushed(out: seq<Token>, text: string): seq<Token> {
    if text == "" then out else out + [Text(text)]
  }

  function Scan1(s: Scanner, c: char): Scanner {
    match s.mode
    case InText(raw) =>
      if c == '<' then Scanner(Flushed(s.out, Unesc(raw)), TagStart) else s.(mode := InText(raw + [c]))
    case TagStart =>
      if c == '/' then s.(mode := InClose(""))
      else if NameChar(c) then s.(mode := InName([c])) else s.(mode := Malformed)
    case InClose(tag) =>
      if c == '>' then Scanner(s.out + [Close(tag)], InText(""))
      else if NameChar(c) then s.(mode := InClose(tag + [c])) else s.(mode := Malformed)
    case InName(tag) =>
      if c == '>' then Scanner(s.out + [Open(tag, [])], InText(""))
      else if c == ' ' then s.(mode := InAttrName(tag, [], ""))
      else if NameChar(c) then s.(mode := InName(tag + [c])) else s.(mode := Malformed)
    case InAttrName(tag, attrs, name) =>
      if c == '=' then s.(mode := BeforeQuote(tag, attrs, name))
      else if NameChar(c) then s.(mode := InAttrName(tag, attrs, name + [c])) else s.(mode := Malformed)
    case BeforeQuote(tag, attrs, name) =>
      if c == '"' then s.(mode := InValue(tag, attrs, name, "")) else s.(mode := Malformed)
    case InValue(tag, attrs, name, raw) =>
      if c == '"' then s.(mode := AfterValue(tag, attrs + [Attr(name, Unesc(raw))]))
      else s.(mode := InValue(tag, attrs, name, raw + [c]))
    case AfterValue(tag, attrs) =>
      if c == '>' then Scanner(s.out + [Open(tag, attrs)], InText(""))
      else if c == ' ' then s.(mode := InAttrName(tag, attrs, "")) else s.(mode := Malformed)
    case Malformed => s
  }

  function Scan(s: Scanner, text: string): Scanner
    decreases |text|
  {
    if text == "" then s else Scan(Scan1(s, text[0]), text[1..])
  }

  /** The tokens of a text, or nothing if it ends inside a tag or is malformed. */
  function Tokens(text: string): Option<seq<Token>> {
    var s := Scan(Scanner([], InText("")), text);
    if s.mode.InText? then Some(Flushed(s.out, Unesc(s.mode.raw))) else None
  }

  lemma {:induction false} ScanAppend(s: Scanner, a: string, b: string)
    ensures Scan(s, a + b) == Scan(Scan(s, a), b)
    decreases |a|
  {
    if a == "" {
      assert a + b == b;
    } else {
      ScanAppend(Scan1(s, a[0]), a[1..], b);
      assert (a + b)[1..] == a[1..] + b;
    }
  }

  lemma {:induction false} ScanText(s: Scanner, text: string)
    requires s.mode.InText? && Free(text, '<')
    ensures Scan(s, text) == s.(mode := InText(s.mode.raw + text))
    decreases |text|
  {
    if text == "" {
      assert s.mode.raw + text == s.mode.raw;
    } else {
      ScanText(Scan1(s, text[0]), text[1..]);
      assert s.mode.raw + [text[0]] + text[1..] == s.mode.raw + text;
    }
  }

  lemma {:induction false} ScanValue(s: Scanner, text: string)
    requires s.mode.InValue? && Free(text, '"')
    ensures Scan(s, text) == s.(mode := s.mode.(raw := s.mode.raw + text))
    decreases |text|
  {
    if text == "" {
      assert s.mode.raw + text == s.mode.raw;
    } else {
      ScanValue(Scan1(s, text[0]), text[1..]);
      assert s.mode.raw + [text[0]] + text[1..] == s.mode.raw + text;
    }
  }

  /** Reading a name extends whichever name is being read. */
  lemma {:induction false} ScanName(s: Scanner, text: string)
    requires forall i :: 0 <= i < |text| ==> NameChar(text[i])
    ensures s.mode.InName? ==> Scan(s, text) == s.(mode := InName(s.mode.tag + text))
    ensures s.mode.InClose? ==> Scan(s, text) == s.(mode := InClose(s.mode.tag + text))
    ensures s.mode.InAttrName? ==> Scan(s, text) == s.(mode := InAttrName(s.mode.tag, s.mode.attrs, s.mode.name + text))
    decreases |text|
  {
    if text == "" {
      if s.mode.InName? || s.mode.InClose? { assert s.mode.tag + text == s.mode.tag; }
      if s.mode.InAttrName? { assert s.mode.name + text == s.mode.name; }
    } else {
      ScanName(Scan1(s, text[0]), text[1..]);
      if s.mode.InName? || s.mode.InClose? { assert s.mode.tag + [text[0]] + text[1..] == s.mode.tag + text; }
      if s.mode.InAttrName? { assert s.mode.name + [text[0]] + text[1..] == s.mode.name + text; }
    }
  }

  /** One attribute, from just after the space before its name. */
  lemma ScanAttr(out: seq<Token>, tag: string, attrs: seq<Attr>, a: Attr)
    requires Name(a.name)
    ensures Scan(Scanner(out, InAttrName(tag, attrs, "")), a.name + "=\"" + Esc(a.value) + "\"")
         == Scanner(out, AfterValue(tag, attrs + [a]))
  {
    var s0 := Scanner(out, InAttrName(tag, attrs, ""));
    ScanName(s0, a.name);
    assert "" + a.name == a.name;
    var s1 := Scanner(out, InAttrName(tag, attrs, a.name));
    ScanAppend(s0, a.name, "=\"");
    assert Scan(s1, "=\"") == Scan(Scan1(s1, '='), "\"");
    var s2 := Scanner(out, InValue(tag, attrs, a.name, ""));
    assert Scan(Scan1(s1, '='), "\"") == Scan(s2, "");
    ScanAppend(s0, a.name + "=\"", Esc(a.value));
    EscClean(a.value);
    ScanValue(s2, Esc(a.value));
    assert "" + Esc(a.value) == Esc(a.value);
    ScanAppend(s0, a.name + "=\"" + Esc(a.value), "\"");
    UnescEsc(a.value);
    var s3 := Scanner(out, InValue(tag, attrs, a.name, Esc(a.value)));
    assert Scan(s3, "\"") == Scan(Scan1(s3, '"'), "");
  }

  predicate AtTagEnd(m: Mode, tag: string, attrs: seq<Attr>) {
    if m.InName? then m.tag == tag && attrs == [] else m == AfterValue(tag, attrs)
  }

  /** From the end of one attribute, or of the tag name, to the end of the next. */
  lemma ScanSpaceAttr(s: Scanner, tag: string, done: seq<Attr>, a: Attr, rest: string)
    requires AtTagEnd(s.mode, tag, done) && Name(a.name)
    ensures Scan(s, " " + a.name + "=\"" + Esc(a.value) + "\"" + rest)
         == Scan(Scanner(s.out, AfterValue(tag, done + [a])), rest)
  {
    var body := a.name + "=\"" + Esc(a.value) + "\"";
    assert " " + a.name + "=\"" + Esc(a.value) + "\"" + rest == [' '] + (body + rest);
    assert ([' '] + (body + rest))[1..] == body + rest;
    assert Scan1(s, ' ') == Scanner(s.out, InAttrName(tag, done, ""));
    ScanAppend(Scan1(s, ' '), body, rest);
    ScanAttr(s.out, tag, done, a);
  }

  /** The rest of an opening tag: attributes, then the bracket. */
  lemma {:induction false} ScanAttrs(s: Scanner, tag: string, done: seq<Attr>, attrs: seq<Attr>)
    requires AtTagEnd(s.mode, tag, done) && forall i :: 0 <= i < |attrs| ==> Name(attrs[i].name)
    ensures Scan(s, PrintAttrs(attrs) + ">") == Scanner(s.out + [Open(tag, done + attrs)], InText(""))
    decreases |attrs|
  {
    if attrs == [] {
      assert PrintAttrs(attrs) + ">" == ">" && done + attrs == done;
      assert Scan(s, ">") == Scan(Scan1(s, '>'), "");
    } else {
      var a := attrs[0];
      ScanSpaceAttr(s, tag, done, a, PrintAttrs(attrs[1..]) + ">");
      Assoc(" " + a.name + "=\"" + Esc(a.value) + "\"", PrintAttrs(attrs[1..]), ">");
      ScanAttrs(Scanner(s.out, AfterValue(tag, done + [a])), tag, done + [a], attrs[1..]);
      assert done + [a] + attrs[1..] == done + attrs;
    }
  }

  lemma ScanOpen(s: Scanner, tag: string, attrs: seq<Attr>)
    requires s.mode.InText? && GoodToken(Open(tag, attrs))
    ensures Scan(s, Print(Open(tag, attrs)))
         == Scanner(Flushed(s.out, Unesc(s.mode.raw)) + [Open(tag, attrs)], InText(""))
  {
    var out := Flushed(s.out, Unesc(s.mode.raw));
    var end := PrintAttrs(attrs) + ">";
    var rest := tag[1..] + end;
    assert Print(Open(tag, attrs)) == ['<'] + ([tag[0]] + rest);
    assert (['<'] + ([tag[0]] + rest))[1..] == [tag[0]] + rest;
    assert ([tag[0]] + rest)[1..] == rest;
    var s1 := Scanner(out, InName([tag[0]]));
    assert Scan(s, Print(Open(tag, attrs))) == Scan(s1, rest);
    ScanAppend(s1, tag[1..], end);
    ScanName(s1, tag[1..]);
    assert [tag[0]] + tag[1..] == tag;
    ScanAttrs(Scanner(out, InName(tag)), tag, [], attrs);
    assert [] + attrs == attrs;
  }

  lemma ScanClose(s: Scanner, tag: string)
    requires s.mode.InText? && Name(tag)
    ensures Scan(s, Print(Close(tag))) == Scanner(Flushed(s.out, Unesc(s.mode.raw)) + [Close(tag)], InText(""))
  {
    var out := Flushed(s.out, Unesc(s.mode.raw));
    assert Print(Close(tag)) == ['<'] + (['/'] + (tag + ">"));
    assert (['<'] + (['/'] + (tag + ">")))[1..] == ['/'] + (tag + ">");
    assert (['/'] + (tag + ">"))[1..] == tag + ">";
    var s1 := Scanner(out, InClose(""));
    ScanAppend(s1, tag, ">");
    ScanName(s1, tag);
    assert "" + tag == tag;
    var s2 := Scanner(out, InClose(tag));
    assert Scan(s2, ">") == Scan(Scan1(s2, '>'), "");
  }

  // ----- what scanning a printed sequence gives back -----

  /** Feeding tokens one by one, holding back text until a tag follows. */
  function Feed(out: seq<Token>, text: string, ts: seq<Token>): (seq<Token>, string)
    decreases |ts|
  {
    if ts == [] then (out, text)
    else if ts[0].Text? then Feed(out, text + ts[0].s, ts[1..])
    else Feed(Flushed(out, text) + [ts[0]], "", ts[1..])
  }

  /** The same tokens with adjacent text run together. */
  function Merge(ts: seq<Token>): seq<Token> {
    var (out, text) := Feed([], "", ts); Flushed(out, text)
  }

  lemma {:induction false} ScanPrinted(out: seq<Token>, text: string, ts: seq<Token>)
    requires Good(ts)
    ensures var (out', text') := Feed(out, text, ts);
            Scan(Scanner(out, InText(Esc(text))), PrintAll(ts)) == Scanner(out', InText(Esc(text')))
    decreases |ts|
  {
    if ts != [] {
      var s := Scanner(out, InText(Esc(text)));
      assert GoodToken(ts[0]);
      UnescEsc(text);
      ScanAppend(s, Print(ts[0]), PrintAll(ts[1..]));
      match ts[0] {
        case Text(t) =>
          EscClean(t);
          ScanText(s, Esc(t));
          EscAppend(text, t);
          ScanPrinted(out, text + t, ts[1..]);
        case Open(tag, attrs) =>
          ScanOpen(s, tag, attrs);
          ScanPrinted(Flushed(out, text) + [ts[0]], "", ts[1..]);
        case Close(tag) =>
          ScanClose(s, tag);
          ScanPrinted(Flushed(out, text) + [ts[0]], "", ts[1..]);
      }
    }
  }

  /** Tokenising printed tokens gives those tokens back, with adjacent text merged. */
  lemma TokensOfPrinted(ts: seq<Token>)
    requires Good(ts)
    ensures Tokens(PrintAll(ts)) == Some(Merge(ts))
  {
    ScanPrinted([], "", ts);
    var (out, text) := Feed([], "", ts);
    UnescEsc(text);
  }

  /** The text of a token sequence, and its tags. */
  function Shown(t: Token): string { if t.Text? then t.s else "" }

  function Tag(t: Token): seq<Token> { if t.Text? then [] else [t] }

  function TextOf(ts: seq<Token>): string {
    if ts == [] then "" else Shown(ts[0]) + TextOf(ts[1..])
  }

  function TagsOf(ts: seq<Token>): seq<Token> {
    if ts == [] then [] else Tag(ts[0]) + TagsOf(ts[1..])
  }

  lemma {:induction false} TextAppend(a: seq<Token>, b: seq<Token>)
    ensures TextOf(a + b) == TextOf(a) + TextOf(b)
  {
    if a == [] {
      assert a + b == b;
    } else {
      TextAppend(a[1..], b);
      assert (a + b)[1..] == a[1..] + b;
      Assoc(Shown(a[0]), TextOf(a[1..]), TextOf(b));
    }
  }

  lemma {:induction false} TagsAppend(a: seq<Token>, b: seq<Token>)
    ensures TagsOf(a + b) == TagsOf(a) + TagsOf(b)
  {
    if a == [] {
      assert a + b == b;
    } else {
      TagsAppend(a[1..], b);
      assert (a + b)[1..] == a[1..] + b;
      Assoc(Tag(a[0]), TagsOf(a[1..]), TagsOf(b));
    }
  }

  lemma FlushedText(out: seq<Token>, text: string)
    ensures TextOf(Flushed(out, text)) == TextOf(out) + text && TagsOf(Flushed(out, text)) == TagsOf(out)
  {
    TextAppend(out, [Text(text)]);
    TagsAppend(out, [Text(text)]);
  }

  lemma {:induction false} FeedText(out: seq<Token>, text: string, ts: seq<Token>)
    ensures var (out', text') := Feed(out, text, ts); TextOf(out') + text' == TextOf(out) + text + TextOf(ts)
    decreases |ts|
  {
    if ts != [] {
      if ts[0].Text? {
        FeedText(out, text + ts[0].s, ts[1..]);
        Assoc(TextOf(out), text, ts[0].s);
        Assoc(TextOf(out) + text, ts[0].s, TextOf(ts[1..]));
      } else {
        FeedText(Flushed(out, text) + [ts[0]], "", ts[1..]);
        FlushedText(out, text);
        TextAppend(Flushed(out, text), [ts[0]]);
        assert TextOf([ts[0]]) == "";
      }
    }
  }

  lemma {:induction false} FeedTags(out: seq<Token>, text: string, ts: seq<Token>)
    ensures TagsOf(Feed(out, text, ts).0) == TagsOf(out) + TagsOf(ts)
    decreases |ts|
  {
    if ts != [] {
      if ts[0].Text? {
        FeedTags(out, text + ts[0].s, ts[1..]);
      } else {
        FeedTags(Flushed(out, text) + [ts[0]], "", ts[1..]);
        FlushedText(out, text);
        TagsAppend(Flushed(out, text), [ts[0]]);
        Assoc(TagsOf(out), [ts[0]], TagsOf(ts[1..]));
      }
    }
  }

  predicate NoAdjacentText(ts: seq<Token>) {
    forall i :: 0 <= i < |ts| ==> ts[i] != Text("") && (i > 0 ==> !(ts[i - 1].Text? && ts[i].Text?))
  }

  predicate EndsInTag(ts: seq<Token>) { ts != [] ==> !ts[|ts| - 1].Text? }

  lemma {:induction false} FeedSeparates(out: seq<Token>, text: string, ts: seq<Token>)
    requires NoAdjacentText(out) && EndsInTag(out)
    ensures NoAdjacentText(Feed(out, text, ts).0) && EndsInTag(Feed(out, text, ts).0)
    decreases |ts|
  {
    if ts != [] {
      if ts[0].Text? {
        FeedSeparates(out, text + ts[0].s, ts[1..]);
      } else {
        FeedSeparates(Flushed(out, text) + [ts[0]], "", ts[1..]);
      }
    }
  }

  /** Merging keeps the text and the tags in order, and leaves no empty or adjacent text. */
  lemma MergeKeeps(ts: seq<Token>)
    ensures TextOf(Merge(ts)) == TextOf(ts) && TagsOf(Merge(ts)) == TagsOf(ts) && NoAdjacentText(Merge(ts))
  {
    var (out, text) := Feed([], "", ts);
    FlushedText(out, text);
    assert TextOf(Merge(ts)) == TextOf(ts) by { FeedText([], "", ts); }
    assert TagsOf(Merge(ts)) == TagsOf(ts) by { FeedTags([], "", ts); }
    FeedSeparates([], "", ts);
  }

  // ----- nesting -----

  predicate IsVoid(tag: string) { tag == "br" || tag == "hr" || tag == "img" }

  /** Match tags against a stack of open elements; nothing if a close does not match. */
  function Nest(ts: seq<Token>, open: seq<string>): Option<seq<string>> {
    if ts == [] then Some(open)
    else match ts[0]
      case Text(_) => Nest(ts[1..], open)
      case Open(tag, _) => Nest(ts[1..], if IsVoid(tag) then open else [tag] + open)
      case Close(tag) => if open != [] && open[0] == tag then Nest(ts[1..], open[1..]) else None
  }

  predicate WellNested(ts: seq<Token>) { Nest(ts, []) == Some([]) }

  lemma {:induction false} NestAppend(a: seq<Token>, b: seq<Token>, open: seq<string>)
    ensures Nest(a + b, open) == match Nest(a, open) case None => None case Some(o) => Nest(b, o)
  {
    if a == [] {
      assert a + b == b;
    } else {
      assert (a + b)[1..] == a[1..] + b;
      match a[0] {
        case Text(_) => NestAppend(a[1..], b, open);
        case Open(tag, _) => NestAppend(a[1..], b, if IsVoid(tag) then open else [tag] + open);
        case Close(tag) => if open != [] { NestAppend(a[1..], b, open[1..]); }
      }
    }
  }

  /** Text does not matter to nesting. */
  lemma {:induction false} NestOfTags(ts: seq<Token>, open: seq<string>)
    ensures Nest(ts, open) == Nest(TagsOf(ts), open)
  {
    if ts != [] {
      match ts[0] {
        case Text(_) =>
          assert [] + TagsOf(ts[1..]) == TagsOf(ts[1..]);
          NestOfTags(ts[1..], open);
        case Open(tag, _) =>
          assert TagsOf(ts)[1..] == TagsOf(ts[1..]);
          NestOfTags(ts[1..], if IsVoid(tag) then open else [tag] + open);
        case Close(tag) =>
          assert TagsOf(ts)[1..] == TagsOf(ts[1..]);
          if open != [] { NestOfTags(ts[1..], open[1..]); }
      }
    }
  }
}
