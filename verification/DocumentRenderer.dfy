/** The render functions of app/document.go as they are: every one writes into
    one shared builder, and each appends exactly its node's rendered tree. */
module DocumentRenderer {
  import opened Common
  import opened Html
  import opened Urls
  import opened Document

  /** strings.Builder. */
  class Builder {
    var buf: string

    constructor ()
      ensures buf == ""
    {
      buf := "";
    }

    method WriteString(s: string)
      modifies this
      ensures buf == old(buf) + s
    {
      buf := buf + s;
    }
  }

  // ----- what the pieces concatenate to -----

  lemma PrintOne(t: Token)
    ensures PrintAll([t]) == Print(t)
  {
    assert [t][1..] == [] && Print(t) + "" == Print(t);
  }

  function RenderedTree(t: Tree): string { PrintAll(Flat(t)) }

  lemma PrintElement(tag: string, attrs: seq<Attr>, kids: seq<Tree>)
    ensures RenderedTree(Element(tag, attrs, kids))
         == Print(Open(tag, attrs)) + PrintAll(FlatAll(kids)) + Print(Close(tag))
  {
    PrintAppend([Open(tag, attrs)], FlatAll(kids));
    PrintAppend([Open(tag, attrs)] + FlatAll(kids), [Close(tag)]);
    PrintOne(Open(tag, attrs));
    PrintOne(Close(tag));
  }

  function RenderedAll(site: Site, ns: seq<Node>): string { PrintAll(FlatAll(IntentAll(site, ns))) }

  lemma RenderedCons(site: Site, ns: seq<Node>)
    requires ns != []
    ensures RenderedAll(site, ns) == Rendered(site, ns[0]) + RenderedAll(site, ns[1..])
  {
    FlatAllAppend(Intent(site, ns[0]), IntentAll(site, ns[1..]));
    PrintAppend(FlatAll(Intent(site, ns[0])), FlatAll(IntentAll(site, ns[1..])));
  }

  lemma RenderedSingle(site: Site, n: Node, t: Tree)
    requires Intent(site, n) == [t]
    ensures Rendered(site, n) == RenderedTree(t)
  {
    Single(t);
  }

  // ----- text leaves: openings in order, closings in reverse -----

  function Opening(m: Mark): string {
    if m.kind == "link" && m.href != "" then Print(Open("a", LinkAttrs(WithoutTracking(m.href))))
    else if m.kind in MARK_TAGS then Print(Open(MARK_TAGS[m.kind], [])) else ""
  }

  function Closing(m: Mark): seq<string> {
    if m.kind == "link" && m.href != "" then [Print(Close("a"))]
    else if m.kind in MARK_TAGS then [Print(Close(MARK_TAGS[m.kind]))] else []
  }

  function Openings(ms: seq<Mark>): string { if ms == [] then "" else Opening(ms[0]) + Openings(ms[1..]) }

  function Closings(ms: seq<Mark>): seq<string> { if ms == [] then [] else Closing(ms[0]) + Closings(ms[1..]) }

  function Backward(cs: seq<string>): string { if cs == [] then "" else Backward(cs[1..]) + cs[0] }

  /** Emitting the closings in reverse closes each mark around what it opened. */
  lemma {:induction false} MarkedPrints(ms: seq<Mark>, inner: Tree)
    ensures RenderedTree(Marked(ms, inner)) == Openings(ms) + RenderedTree(inner) + Backward(Closings(ms))
  {
    if ms == [] {
      assert "" + RenderedTree(inner) + "" == RenderedTree(inner);
    } else {
      var m, rest := ms[0], Marked(ms[1..], inner);
      MarkedPrints(ms[1..], inner);
      assert Marked([m][1..], rest) == rest;
      if Closing(m) == [] {
        assert Closings(ms) == Closings(ms[1..]) && Openings(ms) == Openings(ms[1..]);
      } else {
        MarkPrints(m, rest);
        assert Closings(ms)[0] == Closing(m)[0] && Closings(ms)[1..] == Closings(ms[1..]);
        Around(Opening(m), Openings(ms[1..]), RenderedTree(inner), Backward(Closings(ms[1..])), Closing(m)[0]);
      }
    }
  }

  lemma MarkPrints(m: Mark, rest: Tree)
    requires Closing(m) != []
    ensures RenderedTree(Marked([m], rest)) == Opening(m) + RenderedTree(rest) + Closing(m)[0]
  {
    assert Marked([m][1..], rest) == rest;
    Single(rest);
    if m.kind == "link" && m.href != "" {
      PrintElement("a", LinkAttrs(WithoutTracking(m.href)), [rest]);
    } else {
      PrintElement(MARK_TAGS[m.kind], [], [rest]);
    }
  }

  lemma Around(o: string, os: string, mid: string, cs: string, c: string)
    ensures o + (os + mid + cs) + c == o + os + mid + (cs + c)
  {}

  lemma {:induction false} BackwardExtend(cs: seq<string>, c: string)
    ensures Backward(cs + [c]) == c + Backward(cs)
  {
    if cs == [] {
      assert cs + [c] == [c] && [c][1..] == [];
    } else {
      BackwardExtend(cs[1..], c);
      assert (cs + [c])[1..] == cs[1..] + [c];
      Assoc(c, Backward(cs[1..]), cs[0]);
    }
  }

  // The literals the renderer writes, cut where a printed token's pieces meet.

  lemma LinkLiteral()
    ensures "<a target=\"_blank\" href=\""
         == "<" + "a" + (" " + "target" + "=\"" + "_blank" + "\"") + (" " + "href" + "=\"")
  {}

  lemma BlankAttr()
    ensures PrintAttr(Attr("target", "_blank")) == " " + "target" + "=\"" + "_blank" + "\""
  {
    EscPlain("_blank");
  }

  lemma EscGif()
    ensures Esc("[GIF]") == "[GIF]"
  {
    EscPlain("[GIF]");
  }

  lemma AnchorLiteral()
    ensures "<a href=\"" == "<" + "a" + (" " + "href" + "=\"")
  {}

  lemma ImgLiterals()
    ensures "<img src=\"" == "<" + "img" + (" " + "src" + "=\"")
    ensures "\" alt=\"" == "\"" + (" " + "alt" + "=\"")
    ensures "\" title=\"" == "\"" + (" " + "title" + "=\"")
  {}

  lemma EndLiteral()
    ensures "\">" == "\"" + ">"
  {}

  lemma WideImgLiteral()
    ensures "<img width=\"50%\" src=\"" == "<" + "img" + (" " + "width" + "=\"" + "50%" + "\"") + (" " + "src" + "=\"")
  {}

  function PrintAttr(a: Attr): string { " " + a.name + "=\"" + Esc(a.value) + "\"" }

  lemma AttrsCons(a: Attr, rest: seq<Attr>)
    ensures PrintAttrs([a] + rest) == PrintAttr(a) + PrintAttrs(rest)
  {
    assert ([a] + rest)[1..] == rest;
  }

  lemma Regroup1(head: string, i: string, v: string, q: string, end: string)
    ensures head + (i + v + q + "") + end == head + i + v + (q + end)
  {}

  lemma Regroup2(head: string, before: string, i: string, v: string, q: string, end: string)
    ensures head + (before + (i + v + q + "")) + end == head + before + i + v + (q + end)
  {}

  lemma Regroup3(head: string, i: string, v: string, j: string, w: string, k: string, x: string, q: string, end: string)
    ensures head + (i + v + q + (j + w + q + (k + x + q + ""))) + end
         == head + i + v + (q + j) + w + (q + k) + x + (q + end)
  {}

  lemma LinkPrints(href: string)
    ensures Print(Open("a", LinkAttrs(href))) == "<a target=\"_blank\" href=\"" + Esc(href) + "\">"
  {
    var target, link := Attr("target", "_blank"), Attr("href", href);
    AttrsCons(link, []);
    AttrsCons(target, [link] + []);
    assert LinkAttrs(href) == [target] + ([link] + []);
    LinkLiteral();
    BlankAttr();
    EndLiteral();
    Regroup2("<" + "a", PrintAttr(target), " " + "href" + "=\"", Esc(href), "\"", ">");
  }

  lemma AnchorPrints(href: string)
    ensures Print(Open("a", [Attr("href", href)])) == "<a href=\"" + Esc(href) + "\">"
  {
    AttrsCons(Attr("href", href), []);
    assert [Attr("href", href)] == [Attr("href", href)] + [];
    AnchorLiteral();
    EndLiteral();
    Regroup1("<" + "a", " " + "href" + "=\"", Esc(href), "\"", ">");
  }

  /** An image's attributes after whatever head the tag starts with. */
  lemma ImgAttrsPrint(head: string, src: string, caption: string)
    ensures head + PrintAttrs(ImgAttrs(src, caption)) + ">"
         == head + (" " + "src" + "=\"") + Esc(src) + "\" alt=\"" + Esc(caption) + "\" title=\"" + Esc(caption) + "\">"
  {
    var x, y, z := Attr("src", src), Attr("alt", caption), Attr("title", caption);
    AttrsCons(z, []);
    AttrsCons(y, [z] + []);
    AttrsCons(x, [y] + ([z] + []));
    assert ImgAttrs(src, caption) == [x] + ([y] + ([z] + []));
    ImgLiterals();
    EndLiteral();
    Regroup3(head, " " + "src" + "=\"", Esc(src), " " + "alt" + "=\"", Esc(caption),
             " " + "title" + "=\"", Esc(caption), "\"", ">");
  }

  lemma TagPrints(tag: string)
    ensures Print(Open(tag, [])) == "<" + tag + ">" && Print(Close(tag)) == "</" + tag + ">"
  {
    assert "<" + tag + "" == "<" + tag;
  }

  lemma CloseLiteral()
    ensures "</a>" == "</" + "a" + ">"
  {}

  lemma LinkMark(m: Mark)
    requires m.kind == "link" && m.href != ""
    ensures Opening(m) == "<a target=\"_blank\" href=\"" + Esc(WithoutTracking(m.href)) + "\">"
    ensures Closing(m) == ["</a>"]
  {
    LinkPrints(WithoutTracking(m.href));
    TagPrints("a");
    CloseLiteral();
  }

  lemma TagMark(m: Mark)
    requires !(m.kind == "link" && m.href != "") && m.kind in MARK_TAGS
    ensures Opening(m) == "<" + MARK_TAGS[m.kind] + ">" && Closing(m) == ["</" + MARK_TAGS[m.kind] + ">"]
  {
    TagPrints(MARK_TAGS[m.kind]);
  }

  method OpenMark(m: Mark) returns (opening: string, closing: seq<string>)
    ensures opening == Opening(m) && closing == Closing(m)
  {
    opening, closing := "", [];
    if m.kind == "link" && m.href != "" {
      LinkMark(m);
      return "<a target=\"_blank\" href=\"" + Esc(WithoutTracking(m.href)) + "\">", ["</a>"];
    }
    if m.kind in MARK_TAGS {
      var tag := MARK_TAGS[m.kind];
      TagMark(m);
      return "<" + tag + ">", ["</" + tag + ">"];
    }
  }

  /** The first loop of renderDocText: openings in a builder, closings in a list. */
  method OpenMarks(ms: seq<Mark>) returns (opening: string, closing: seq<string>)
    ensures opening == Openings(ms) && closing == Closings(ms)
  {
    opening, closing := "", [];
    for i := 0 to |ms|
      invariant opening + Openings(ms[i..]) == Openings(ms) && closing + Closings(ms[i..]) == Closings(ms)
    {
      assert ms[i..][0] == ms[i] && ms[i..][1..] == ms[i + 1..];
      var o, c := OpenMark(ms[i]);
      Assoc(opening, o, Openings(ms[i + 1..]));
      Assoc(closing, c, Closings(ms[i + 1..]));
      opening, closing := opening + o, closing + c;
    }
  }

  /** The second: the list emitted in reverse. */
  method WriteBackward(b: Builder, closing: seq<string>)
    modifies b
    ensures b.buf == old(b.buf) + Backward(closing)
  {
    assert closing[..|closing|] == closing;
    for i := |closing| downto 0
      invariant b.buf + Backward(closing[..i]) == old(b.buf) + Backward(closing)
    {
      assert closing[..i + 1] == closing[..i] + [closing[i]];
      BackwardExtend(closing[..i], closing[i]);
      Assoc(b.buf, closing[i], Backward(closing[..i]));
      b.WriteString(closing[i]);
    }
  }

  method RenderDocText(b: Builder, n: Node)
    modifies b
    ensures b.buf == old(b.buf) + RenderedTree(Marked(n.marks, Leaf(n.text)))
  {
    var opening, closing := OpenMarks(n.marks);
    b.WriteString(opening);
    b.WriteString(Esc(n.text));
    WriteBackward(b, closing);
    assert RenderedTree(Leaf(n.text)) == Esc(n.text) by { PrintOne(Text(n.text)); }
    assert RenderedTree(Marked(n.marks, Leaf(n.text))) == opening + Esc(n.text) + Backward(closing) by {
      MarkedPrints(n.marks, Leaf(n.text));
    }
    Chain3(old(b.buf), opening, Esc(n.text), Backward(closing));
  }

  lemma Chain3(o: string, a: string, b: string, c: string)
    ensures o + a + b + c == o + (a + b + c)
  {}

  // ----- the other leaves -----

  /** An image tag, from its own head on. */
  method WriteImg(b: Builder, head: string, src: string, caption: string)
    modifies b
    ensures b.buf == old(b.buf) + (head + Esc(src) + "\" alt=\"" + Esc(caption) + "\" title=\"" + Esc(caption) + "\">")
  {
    b.WriteString(head);
    b.WriteString(Esc(src));
    b.WriteString("\" alt=\"");
    b.WriteString(Esc(caption));
    b.WriteString("\" title=\"");
    b.WriteString(Esc(caption));
    b.WriteString("\">");
    Chain7(old(b.buf), head, Esc(src), "\" alt=\"", Esc(caption), "\" title=\"", Esc(caption), "\">");
  }

  lemma Chain7(o: string, a: string, b: string, c: string, d: string, e: string, f: string, g: string)
    ensures o + a + b + c + d + e + f + g == o + (a + b + c + d + e + f + g)
  {}

  lemma VoidPrints(attrs: seq<Attr>)
    ensures PrintAll(FlatAll([Void("img", attrs)])) == "<" + "img" + PrintAttrs(attrs) + ">"
  {
    Single(Void("img", attrs));
    PrintOne(Open("img", attrs));
  }

  method RenderDocEmote(b: Builder, site: Site, a: Attrs)
    modifies b
    ensures b.buf == old(b.buf) + PrintAll(FlatAll(EmoteTree(site, a)))
  {
    var src := a.emoteUrl;
    if src == "" {
      var name := TrimRight(TrimLeft(a.emoteCode, ':'), ':');
      if name != "" {
        src := URLBuilder(site, ["media", "emojitar", name, "?type=e"]);
      }
    }
    assert src == EmoteSrc(site, a);
    if src == "" {
      return;
    }
    var caption := a.emoteTitle;
    if caption == "" {
      caption := a.emoteCode;
    }
    WriteImg(b, "<img src=\"", src, caption);
    assert EmoteTree(site, a) == [Void("img", ImgAttrs(src, caption))];
    VoidPrints(ImgAttrs(src, caption));
    ImgLiterals();
    ImgAttrsPrint("<" + "img", src, caption);
  }

  lemma ElementPrints(tag: string, attrs: seq<Attr>, kids: seq<Tree>)
    ensures PrintAll(FlatAll([Element(tag, attrs, kids)]))
         == Print(Open(tag, attrs)) + PrintAll(FlatAll(kids)) + Print(Close(tag))
  {
    Single(Element(tag, attrs, kids));
    PrintElement(tag, attrs, kids);
  }

  lemma LeafPrints(s: string)
    ensures PrintAll(FlatAll([Leaf(s)])) == Esc(s)
  {
    Single(Leaf(s));
    PrintOne(Text(s));
  }

  /** An embedded artwork; d is absent when its attributes did not decode. */
  method RenderDocDeviation(b: Builder, decoded: Option<Deviation>)
    modifies b
    ensures b.buf == old(b.buf) + if decoded.Some? then PrintAll(FlatAll(DeviationTree(decoded.value))) else ""
  {
    if decoded.None? || !decoded.value.visible {
      return;
    }
    var d := decoded.value;
    var caption := Esc(Label(d));
    ghost var open := if d.link == "" then "" else Print(Open("a", [Attr("href", d.link)]));
    ghost var close := if d.link == "" then "" else Print(Close("a"));
    if d.link != "" {
      AnchorPrints(d.link);
      b.WriteString("<a href=\"");
      b.WriteString(Esc(d.link));
      b.WriteString("\">");
      Chain3(old(b.buf), "<a href=\"", Esc(d.link), "\">");
    }
    assert b.buf == old(b.buf) + open;
    if d.img != "" {
      WriteImg(b, "<img width=\"50%\" src=\"", d.img, Label(d));
    } else {
      b.WriteString(caption);
    }
    ghost var shown := if d.img == "" then Leaf(Label(d))
      else Void("img", [Attr("width", "50%")] + ImgAttrs(d.img, Label(d)));
    ShownPrints(d);
    assert b.buf == old(b.buf) + open + PrintAll(FlatAll([shown]));
    if d.link != "" {
      TagPrints("a");
      CloseLiteral();
      b.WriteString("</a>");
      ElementPrints("a", [Attr("href", d.link)], [shown]);
    }
    assert b.buf == old(b.buf) + open + PrintAll(FlatAll([shown])) + close;
    Chain3(old(b.buf), open, PrintAll(FlatAll([shown])), close);
    assert DeviationTree(d) == if d.link == "" then [shown] else [Element("a", [Attr("href", d.link)], [shown])];
  }

  lemma ShownPrints(d: Deviation)
    ensures d.img == "" ==> PrintAll(FlatAll([Leaf(Label(d))])) == Esc(Label(d))
    ensures PrintAll(FlatAll([Void("img", [Attr("width", "50%")] + ImgAttrs(d.img, Label(d)))]))
         == "<img width=\"50%\" src=\"" + Esc(d.img) + "\" alt=\"" + Esc(Label(d))
            + "\" title=\"" + Esc(Label(d)) + "\">"
  {
    LeafPrints(Label(d));
    var width := Attr("width", "50%");
    var rest := ImgAttrs(d.img, Label(d));
    VoidPrints([width] + rest);
    AttrsCons(width, rest);
    EscPlain("50%");
    WideImgLiteral();
    Assoc("<" + "img", PrintAttr(width), PrintAttrs(rest));
    ImgAttrsPrint("<" + "img" + PrintAttr(width), d.img, Label(d));
  }

  method RenderDocGif(b: Builder, url: string)
    modifies b
    ensures b.buf == old(b.buf) + PrintAll(FlatAll(GifTree(url)))
  {
    if url != "" {
      b.WriteString("<a target=\"_blank\" href=\"");
      b.WriteString(Esc(url));
      b.WriteString("\">[GIF]</a>");
      GifPrints(url);
      Chain3(old(b.buf), "<a target=\"_blank\" href=\"", Esc(url), "\">[GIF]</a>");
    }
  }

  lemma GifPrints(url: string)
    ensures PrintAll(FlatAll([Element("a", LinkAttrs(url), [Leaf("[GIF]")])]))
         == "<a target=\"_blank\" href=\"" + Esc(url) + "\">[GIF]</a>"
  {
    ElementPrints("a", LinkAttrs(url), [Leaf("[GIF]")]);
    LeafPrints("[GIF]");
    EscGif();
    LinkPrints(url);
    TagPrints("a");
    GifLiteral();
    CloseLiteral();
    Regroup4("<a target=\"_blank\" href=\"", Esc(url), "\">", "[GIF]", "</a>");
  }

  lemma GifLiteral()
    ensures "\">[GIF]</a>" == "\">" + "[GIF]" + "</a>"
  {}

  lemma Regroup4(a: string, b: string, c: string, d: string, e: string)
    ensures a + b + c + d + e == a + b + (c + d + e)
  {}

  method RenderDocMention(b: Builder, site: Site, a: Attrs)
    modifies b
    ensures b.buf == old(b.buf) + PrintAll(FlatAll(MentionTree(site, MentionName(a))))
  {
    var name := a.username;
    if name == "" {
      name := a.userUsername;
    }
    if name != "" {
      var url := URLBuilder(site, ["group_user", "?type=about&q=", name]);
      b.WriteString("<a href=\"");
      b.WriteString(Esc(url));
      b.WriteString("\">@");
      b.WriteString(Esc(name));
      b.WriteString("</a>");
      MentionPrints(url, name);
      Chain5(old(b.buf), "<a href=\"", Esc(url), "\">@", Esc(name), "</a>");
    }
  }

  lemma Chain5(o: string, a: string, b: string, c: string, d: string, e: string)
    ensures o + a + b + c + d + e == o + (a + b + c + d + e)
  {}

  lemma MentionPrints(url: string, name: string)
    ensures PrintAll(FlatAll([Element("a", [Attr("href", url)], [Leaf("@" + name)])]))
         == "<a href=\"" + Esc(url) + "\">@" + Esc(name) + "</a>"
  {
    ElementPrints("a", [Attr("href", url)], [Leaf("@" + name)]);
    LeafPrints("@" + name);
    EscAppend("@", name);
    EscPlain("@");
    AnchorPrints(url);
    TagPrints("a");
    MentionLiteral();
    CloseLiteral();
    Regroup5("<a href=\"" + Esc(url), "\">", "@", Esc(name), "</a>");
  }

  lemma MentionLiteral()
    ensures "\">@" == "\">" + "@"
  {}

  lemma Regroup5(a: string, b: string, c: string, d: string, e: string)
    ensures a + b + (c + d) + e == a + (b + c) + d + e
  {}

  // ----- the tree walk -----

  method RenderChildren(b: Builder, site: Site, content: seq<Node>)
    modifies b
    ensures b.buf == old(b.buf) + RenderedAll(site, content)
    decreases content, 0
  {
    for i := 0 to |content|
      invariant b.buf + RenderedAll(site, content[i..]) == old(b.buf) + RenderedAll(site, content)
    {
      assert content[i..][0] == content[i] && content[i..][1..] == content[i + 1..];
      RenderedCons(site, content[i..]);
      Assoc(b.buf, Rendered(site, content[i]), RenderedAll(site, content[i + 1..]));
      RenderDocNode(b, site, content[i]);
    }
    assert content[|content|..] == [];
  }

  method Wrap(b: Builder, site: Site, n: Node, ghost tag: string, opening: string, closing: string)
    requires opening == "<" + tag + ">" && closing == "</" + tag + ">"
    modifies b
    ensures b.buf == old(b.buf) + PrintAll(FlatAll([Element(tag, [], IntentAll(site, n.content))]))
    decreases n, 0
  {
    b.WriteString(opening);
    RenderChildren(b, site, n.content);
    b.WriteString(closing);
    ElementPrints(tag, [], IntentAll(site, n.content));
    TagPrints(tag);
    Chain3(old(b.buf), opening, RenderedAll(site, n.content), closing);
  }

  method RenderDocNode(b: Builder, site: Site, n: Node)
    modifies b
    ensures b.buf == old(b.buf) + Rendered(site, n)
    decreases n, 1
  {
    match KindOf(n.kind) {
      case TextLeaf =>
        RenderDocText(b, n);
        RenderedSingle(site, n, Marked(n.marks, Leaf(n.text)));
      case Container(tag) =>
        Wrap(b, site, n, tag, "<" + tag + ">", "</" + tag + ">");
      case Heading =>
        var tag := HeadingTag(n.attrs.level);
        Wrap(b, site, n, tag, "<" + tag + ">", "</" + tag + ">");
      case Break =>
        b.WriteString("<br>");
        VoidPrints0("br");
      case Rule =>
        b.WriteString("<hr>");
        VoidPrints0("hr");
      case Emote => RenderDocEmote(b, site, n.attrs);
      case Artwork => RenderDocDeviation(b, n.attrs.deviation);
      case Gif => RenderDocGif(b, n.attrs.url);
      case Mention => RenderDocMention(b, site, n.attrs);
      case Other => RenderChildren(b, site, n.content);
    }
  }

  lemma VoidPrints0(tag: string)
    ensures PrintAll(FlatAll([Void(tag, [])])) == "<" + tag + ">"
  {
    Single(Void(tag, []));
    PrintOne(Open(tag, []));
    TagPrints(tag);
  }

  method RenderDocument(site: Site, root: Node) returns (html: string)
    ensures html == Rendered(site, root)
  {
    var b := new Builder();
    RenderDocNode(b, site, root);
    html := b.buf;
  }
}
