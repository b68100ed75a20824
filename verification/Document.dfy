/** The documents of app/document.go: the element tree a node stands for, its text,
    and what a scanner reads back from it once printed. DocumentRenderer has the
    printer of the source, proved to print that tree. */
module Document {
  import opened Common
  import opened Html
  import opened Urls

  /** Go's int. */
  type int64 = n: int | -0x8000_0000_0000_0000 <= n < 0x8000_0000_0000_0000

  datatype Mark = Mark(kind: string, href: string)

  /** An embedded artwork: whether this instance shows it, its link on this
      instance and its thumbnail, either of which may be missing. */
  datatype Deviation = Deviation(visible: bool, link: string, img: string, author: string, title: string)

  /** The decoded attributes the renderer reads; what does not decode is empty or zero. */
  datatype Attrs = Attrs(
    level: int64,
    url: string,
    username: string,
    userUsername: string,
    emoteUrl: string, // the emote's image URL on this instance, or empty
    emoteCode: string,
    emoteTitle: string,
    deviation: Option<Deviation>)

  datatype Node = Node(kind: string, text: string, attrs: Attrs, marks: seq<Mark>, content: seq<Node>)

  // ----- the element tree a node stands for -----

  datatype Tree =
    | Leaf(s: string)
    | Void(tag: string, attrs: seq<Attr>)
    | Element(tag: string, attrs: seq<Attr>, kids: seq<Tree>)

  const OUTGOING := "https://www.deviantart.com/users/outgoing?"

  function WithoutTracking(u: string): string {
    if OUTGOING <= u then u[|OUTGOING|..] else u
  }

  const MARK_TAGS: map<string, string> := map[
    "bold" := "b", "strong" := "b", "italic" := "i", "em" := "i", "underline" := "u",
    "strike" := "s", "strikethrough" := "s", "code" := "code"]

  function LinkAttrs(href: string): seq<Attr> {
    [Attr("target", "_blank"), Attr("href", href)]
  }

  /** Marks wrap from the outside in; unknown ones and empty links wrap nothing. */
  function Marked(ms: seq<Mark>, inner: Tree): Tree {
    if ms == [] then inner
    else
      var m, rest := ms[0], Marked(ms[1..], inner);
      if m.kind == "link" && m.href != "" then Element("a", LinkAttrs(WithoutTracking(m.href)), [rest])
      else if m.kind in MARK_TAGS then Element(MARK_TAGS[m.kind], [], [rest])
      else rest
  }

  function Wrap64(n: int): int64 {
    (n + 0x8000_0000_0000_0000) % 0x1_0000_0000_0000_0000 - 0x8000_0000_0000_0000
  }

  /** h2 to h4: one below the document's own level, clamped. */
  function HeadingTag(level: int64): string {
    var l := Wrap64(level + 1);
    if l <= 2 then "h2" else if l == 3 then "h3" else "h4"
  }

  function TrimLeft(s: string, c: char): string { if s != "" && s[0] == c then TrimLeft(s[1..], c) else s }

  function TrimRight(s: string, c: char): string {
    if s != "" && s[|s| - 1] == c then TrimRight(s[..|s| - 1], c) else s
  }

  /** The emote's image: its own, or guessed from its code without the colons. */
  function EmoteSrc(site: Site, a: Attrs): string {
    var name := TrimRight(TrimLeft(a.emoteCode, ':'), ':');
    if a.emoteUrl != "" then a.emoteUrl
    else if name != "" then Url(site, ["media", "emojitar", name, "?type=e"]) else ""
  }

  function ImgAttrs(src: string, caption: string): seq<Attr> {
    [Attr("src", src), Attr("alt", caption), Attr("title", caption)]
  }

  function EmoteTree(site: Site, a: Attrs): seq<Tree> {
    var src := EmoteSrc(site, a);
    var caption := if a.emoteTitle == "" then a.emoteCode else a.emoteTitle;
    if src == "" then [] else [Void("img", ImgAttrs(src, caption))]
  }

  function Label(d: Deviation): string { d.author + " - " + d.title }

  function DeviationTree(d: Deviation): seq<Tree> {
    if !d.visible then []
    else
      var shown := if d.img == "" then Leaf(Label(d))
        else Void("img", [Attr("width", "50%")] + ImgAttrs(d.img, Label(d)));
      if d.link == "" then [shown] else [Element("a", [Attr("href", d.link)], [shown])]
  }

  function MentionName(a: Attrs): string { if a.username != "" then a.username else a.userUsername }

  function MentionTree(site: Site, name: string): seq<Tree> {
    if name == "" then []
    else [Element("a", [Attr("href", Url(site, ["group_user", "?type=about&q=", name]))], [Leaf("@" + name)])]
  }

  function GifTree(url: string): seq<Tree> {
    if url == "" then [] else [Element("a", LinkAttrs(url), [Leaf("[GIF]")])]
  }

  /** What the renderer's switch makes of a node's type. */
  datatype Kind = TextLeaf | Container(tag: string) | Heading | Break | Rule | Emote | Artwork | Gif | Mention | Other

  const CONTAINERS := {"p", "ul", "ol", "li", "blockquote", "pre"}

  function KindOf(kind: string): (k: Kind)
    ensures k.Container? ==> k.tag in CONTAINERS
  {
    match kind
    case "text" => TextLeaf
    case "paragraph" => Container("p")
    case "heading" => Heading
    case "bulletList" => Container("ul")
    case "orderedList" => Container("ol")
    case "listItem" => Container("li")
    case "blockquote" => Container("blockquote")
    case "codeBlock" => Container("pre")
    case "hardBreak" => Break
    case "horizontalRule" => Rule
    case "da-emote" => Emote
    case "da-deviation" => Artwork
    case "da-deviation-thumb" => Artwork
    case "da-gif" => Gif
    case "da-mention" => Mention
    case _ => Other
  }

  function Intent(site: Site, n: Node): seq<Tree>
    decreases n
  {
    match KindOf(n.kind)
    case TextLeaf => [Marked(n.marks, Leaf(n.text))]
    case Container(tag) => [Element(tag, [], IntentAll(site, n.content))]
    case Heading => [Element(HeadingTag(n.attrs.level), [], IntentAll(site, n.content))]
    case Break => [Void("br", [])]
    case Rule => [Void("hr", [])]
    case Emote => EmoteTree(site, n.attrs)
    case Artwork => if n.attrs.deviation.Some? then DeviationTree(n.attrs.deviation.value) else []
    case Gif => GifTree(n.attrs.url)
    case Mention => MentionTree(site, MentionName(n.attrs))
    case Other => IntentAll(site, n.content)
  }

  function IntentAll(site: Site, ns: seq<Node>): seq<Tree>
    decreases ns
  {
    if ns == [] then [] else Intent(site, ns[0]) + IntentAll(site, ns[1..])
  }

  function Flat(t: Tree): seq<Token>
    decreases t
  {
    match t
    case Leaf(s) => [Text(s)]
    case Void(tag, attrs) => [Open(tag, attrs)]
    case Element(tag, attrs, kids) => [Open(tag, attrs)] + FlatAll(kids) + [Close(tag)]
  }

  function FlatAll(ts: seq<Tree>): seq<Token>
    decreases ts
  {
    if ts == [] then [] else Flat(ts[0]) + FlatAll(ts[1..])
  }

  /** The text a reader sees, in order, told from the document alone. */
  function Visible(n: Node): string
    decreases n
  {
    if n.kind == "text" then n.text
    else if n.kind == "hardBreak" || n.kind == "horizontalRule" || n.kind == "da-emote" then ""
    else if n.kind == "da-deviation" || n.kind == "da-deviation-thumb" then ArtworkText(n.attrs.deviation)
    else if n.kind == "da-gif" then (if n.attrs.url == "" then "" else "[GIF]")
    else if n.kind == "da-mention" then MentionText(n.attrs)
    else VisibleAll(n.content)
  }

  function MentionText(a: Attrs): string {
    if a.username != "" then "@" + a.username
    else if a.userUsername != "" then "@" + a.userUsername
    else ""
  }

  function ArtworkText(d: Option<Deviation>): string {
    if d.Some? && d.value.visible && d.value.img == "" then d.value.author + " - " + d.value.title else ""
  }

  function VisibleAll(ns: seq<Node>): string
    decreases ns
  {
    if ns == [] then "" else Visible(ns[0]) + VisibleAll(ns[1..])
  }

  // ----- flattened trees are good tokens, nest, and show the visible text -----

  ghost predicate WellTagged(t: Tree)
    decreases t
  {
    match t
    case Leaf(_) => true
    case Void(tag, attrs) => IsVoid(tag) && GoodToken(Open(tag, attrs))
    case Element(tag, attrs, kids) => !IsVoid(tag) && GoodToken(Open(tag, attrs)) && AllWellTagged(kids)
  }

  ghost predicate AllWellTagged(ts: seq<Tree>)
    decreases ts
  {
    ts != [] ==> WellTagged(ts[0]) && AllWellTagged(ts[1..])
  }

  lemma {:induction false} FlatAllAppend(a: seq<Tree>, b: seq<Tree>)
    ensures FlatAll(a + b) == FlatAll(a) + FlatAll(b)
    ensures AllWellTagged(a) && AllWellTagged(b) ==> AllWellTagged(a + b)
  {
    if a == [] {
      assert a + b == b;
    } else {
      assert (a + b)[1..] == a[1..] + b;
      FlatAllAppend(a[1..], b);
      Assoc(Flat(a[0]), FlatAll(a[1..]), FlatAll(b));
    }
  }

  /** Flattening a well-tagged tree opens and closes exactly what it opened. */
  lemma {:induction false} FlatNests(t: Tree, open: seq<string>)
    requires WellTagged(t)
    ensures Good(Flat(t)) && Nest(Flat(t), open) == Some(open)
    decreases t
  {
    match t {
      case Leaf(_) =>
      case Void(_, _) =>
      case Element(tag, attrs, kids) =>
        FlatAllNests(kids, [tag] + open);
        var body := FlatAll(kids);
        assert Flat(t) == [Open(tag, attrs)] + (body + [Close(tag)]);
        assert ([Open(tag, attrs)] + (body + [Close(tag)]))[1..] == body + [Close(tag)];
        NestAppend(body, [Close(tag)], [tag] + open);
        assert ([tag] + open)[1..] == open;
    }
  }

  lemma {:induction false} FlatAllNests(ts: seq<Tree>, open: seq<string>)
    requires AllWellTagged(ts)
    ensures Good(FlatAll(ts)) && Nest(FlatAll(ts), open) == Some(open)
    decreases ts
  {
    if ts != [] {
      FlatNests(ts[0], open);
      FlatAllNests(ts[1..], open);
      NestAppend(Flat(ts[0]), FlatAll(ts[1..]), open);
    }
  }

  lemma Single(t: Tree)
    ensures AllWellTagged([t]) <==> WellTagged(t)
    ensures FlatAll([t]) == Flat(t)
  {
    assert [t][1..] == [] && Flat(t) + [] == Flat(t);
  }

  /** Every tag and attribute name the renderer writes is a name. */
  lemma FixedNames()
    ensures Name("a") && Name("img") && Name("br") && Name("hr") && Name("h2") && Name("h3") && Name("h4")
    ensures Name("href") && Name("target") && Name("src") && Name("alt") && Name("title") && Name("width")
    ensures forall k :: k in MARK_TAGS ==> Name(MARK_TAGS[k]) && !IsVoid(MARK_TAGS[k])
  {}

  lemma {:induction false} MarkedIsWellTagged(ms: seq<Mark>, inner: Tree)
    requires WellTagged(inner)
    ensures WellTagged(Marked(ms, inner))
  {
    if ms != [] {
      MarkedIsWellTagged(ms[1..], inner);
      Single(Marked(ms[1..], inner));
      FixedNames();
    }
  }

  lemma ContainerTags()
    ensures forall t :: t in CONTAINERS ==> Name(t) && !IsVoid(t)
  {}

  lemma ContainerNames(kind: string)
    ensures KindOf(kind).Container? ==> Name(KindOf(kind).tag) && !IsVoid(KindOf(kind).tag)
  {
    ContainerTags();
  }

  lemma EmoteIsWellTagged(site: Site, a: Attrs)
    ensures AllWellTagged(EmoteTree(site, a))
  {
    FixedNames();
    if EmoteTree(site, a) != [] { Single(EmoteTree(site, a)[0]); }
  }

  lemma DeviationIsWellTagged(d: Deviation)
    ensures AllWellTagged(DeviationTree(d))
  {
    FixedNames();
    if d.visible {
      var t := DeviationTree(d)[0];
      Single(t);
      if d.link != "" { Single(t.kids[0]); }
    }
  }

  lemma LinkIsWellTagged(attrs: seq<Attr>, s: string)
    requires forall i :: 0 <= i < |attrs| ==> Name(attrs[i].name)
    ensures AllWellTagged([Element("a", attrs, [Leaf(s)])])
  {
    FixedNames();
    Single(Leaf(s));
    Single(Element("a", attrs, [Leaf(s)]));
  }

  lemma {:induction false} IntentIsWellTagged(site: Site, n: Node)
    ensures AllWellTagged(Intent(site, n))
    decreases n
  {
    match KindOf(n.kind) {
      case TextLeaf =>
        MarkedIsWellTagged(n.marks, Leaf(n.text));
        Single(Marked(n.marks, Leaf(n.text)));
      case Container(tag) =>
        ContainerNames(n.kind);
        IntentAllIsWellTagged(site, n.content);
        Single(Element(tag, [], IntentAll(site, n.content)));
      case Heading =>
        FixedNames();
        IntentAllIsWellTagged(site, n.content);
        Single(Element(HeadingTag(n.attrs.level), [], IntentAll(site, n.content)));
      case Break => FixedNames(); Single(Void("br", []));
      case Rule => FixedNames(); Single(Void("hr", []));
      case Emote => EmoteIsWellTagged(site, n.attrs);
      case Artwork => if n.attrs.deviation.Some? { DeviationIsWellTagged(n.attrs.deviation.value); }
      case Gif => FixedNames(); LinkIsWellTagged(LinkAttrs(n.attrs.url), "[GIF]");
      case Mention =>
        FixedNames();
        if MentionName(n.attrs) != "" {
          var t := MentionTree(site, MentionName(n.attrs))[0];
          LinkIsWellTagged(t.attrs, "@" + MentionName(n.attrs));
        }
      case Other => IntentAllIsWellTagged(site, n.content);
    }
  }

  lemma {:induction false} IntentAllIsWellTagged(site: Site, ns: seq<Node>)
    ensures AllWellTagged(IntentAll(site, ns))
    decreases ns
  {
    if ns != [] {
      IntentIsWellTagged(site, ns[0]);
      IntentAllIsWellTagged(site, ns[1..]);
      FlatAllAppend(Intent(site, ns[0]), IntentAll(site, ns[1..]));
    }
  }

  lemma ElementText(tag: string, attrs: seq<Attr>, kids: seq<Tree>)
    ensures TextOf(Flat(Element(tag, attrs, kids))) == TextOf(FlatAll(kids))
  {
    var body := FlatAll(kids);
    Assoc([Open(tag, attrs)], body, [Close(tag)]);
    TextAppend([Open(tag, attrs)], body + [Close(tag)]);
    TextAppend(body, [Close(tag)]);
    assert TextOf([Open(tag, attrs)]) == "" && TextOf([Close(tag)]) == "";
  }

  lemma {:induction false} MarkedText(ms: seq<Mark>, inner: Tree)
    ensures TextOf(Flat(Marked(ms, inner))) == TextOf(Flat(inner))
  {
    if ms != [] {
      var m, rest := ms[0], Marked(ms[1..], inner);
      MarkedText(ms[1..], inner);
      Single(rest);
      if m.kind == "link" && m.href != "" {
        ElementText("a", LinkAttrs(WithoutTracking(m.href)), [rest]);
      } else if m.kind in MARK_TAGS {
        ElementText(MARK_TAGS[m.kind], [], [rest]);
      }
    }
  }

  lemma LeafText(t: Tree)
    ensures t.Leaf? ==> TextOf(Flat(t)) == t.s
    ensures t.Void? ==> TextOf(Flat(t)) == ""
  {}

  lemma DeviationText(d: Deviation)
    ensures TextOf(FlatAll(DeviationTree(d))) == ArtworkText(Some(d))
  {
    if d.visible {
      var shown := if d.img == "" then Leaf(Label(d))
        else Void("img", [Attr("width", "50%")] + ImgAttrs(d.img, Label(d)));
      LeafText(shown);
      Single(shown);
      ElementText("a", [Attr("href", d.link)], [shown]);
      Single(Element("a", [Attr("href", d.link)], [shown]));
    }
  }

  lemma LinkText(attrs: seq<Attr>, s: string)
    ensures TextOf(FlatAll([Element("a", attrs, [Leaf(s)])])) == s
  {
    Single(Leaf(s));
    ElementText("a", attrs, [Leaf(s)]);
    Single(Element("a", attrs, [Leaf(s)]));
  }

  /** What kind each type of node is. */
  lemma Kinds(kind: string)
    ensures KindOf(kind) == TextLeaf <==> kind == "text"
    ensures KindOf(kind) == Heading <==> kind == "heading"
    ensures KindOf(kind) == Break <==> kind == "hardBreak"
    ensures KindOf(kind) == Rule <==> kind == "horizontalRule"
    ensures KindOf(kind) == Emote <==> kind == "da-emote"
    ensures KindOf(kind) == Artwork <==> kind == "da-deviation" || kind == "da-deviation-thumb"
    ensures KindOf(kind) == Gif <==> kind == "da-gif"
    ensures KindOf(kind) == Mention <==> kind == "da-mention"
  {}

  /** The text of the intended tree is the document's visible text. */
  lemma {:induction false} IntentShows(site: Site, n: Node)
    ensures TextOf(FlatAll(Intent(site, n))) == Visible(n)
    decreases n
  {
    Kinds(n.kind);
    match KindOf(n.kind) {
      case TextLeaf =>
        MarkedText(n.marks, Leaf(n.text));
        Single(Marked(n.marks, Leaf(n.text)));
      case Container(tag) =>
        IntentAllShows(site, n.content);
        ElementText(tag, [], IntentAll(site, n.content));
        Single(Element(tag, [], IntentAll(site, n.content)));
      case Heading =>
        IntentAllShows(site, n.content);
        ElementText(HeadingTag(n.attrs.level), [], IntentAll(site, n.content));
        Single(Element(HeadingTag(n.attrs.level), [], IntentAll(site, n.content)));
      case Break => Single(Void("br", []));
      case Rule => Single(Void("hr", []));
      case Emote => if EmoteTree(site, n.attrs) != [] { Single(EmoteTree(site, n.attrs)[0]); }
      case Artwork => if n.attrs.deviation.Some? { DeviationText(n.attrs.deviation.value); }
      case Gif => LinkText(LinkAttrs(n.attrs.url), "[GIF]");
      case Mention =>
        if MentionName(n.attrs) != "" {
          LinkText(MentionTree(site, MentionName(n.attrs))[0].attrs, "@" + MentionName(n.attrs));
        }
      case Other => IntentAllShows(site, n.content);
    }
  }

  lemma {:induction false} IntentAllShows(site: Site, ns: seq<Node>)
    ensures TextOf(FlatAll(IntentAll(site, ns))) == VisibleAll(ns)
    decreases ns
  {
    if ns != [] {
      IntentShows(site, ns[0]);
      IntentAllShows(site, ns[1..]);
      FlatAllAppend(Intent(site, ns[0]), IntentAll(site, ns[1..]));
      TextAppend(FlatAll(Intent(site, ns[0])), FlatAll(IntentAll(site, ns[1..])));
    }
  }

  // ----- what a scanner makes of the rendered document -----

  function TokensOf(site: Site, n: Node): seq<Token> { FlatAll(Intent(site, n)) }

  function Rendered(site: Site, n: Node): string { PrintAll(TokensOf(site, n)) }

  /** Whatever strings the document holds: scanning what is rendered ends in text,
      gives back the intended elements and attributes with their values unescaped,
      up to merging adjacent text, and shows exactly the document's visible text. */
  lemma RenderedFaithfully(site: Site, n: Node)
    ensures Tokens(Rendered(site, n)) == Some(Merge(TokensOf(site, n)))
    ensures TagsOf(Tokens(Rendered(site, n)).value) == TagsOf(TokensOf(site, n))
    ensures TextOf(Tokens(Rendered(site, n)).value) == Visible(n)
  {
    IntentIsWellTagged(site, n);
    FlatAllNests(Intent(site, n), []);
    TokensOfPrinted(TokensOf(site, n));
    MergeKeeps(TokensOf(site, n));
    IntentShows(site, n);
  }

  /** The scanned document is well nested, with br, hr and img standing alone. */
  lemma RenderedWellNested(site: Site, n: Node)
    ensures Tokens(Rendered(site, n)).Some? && WellNested(Tokens(Rendered(site, n)).value)
  {
    RenderedFaithfully(site, n);
    IntentIsWellTagged(site, n);
    FlatAllNests(Intent(site, n), []);
    NestOfTags(TokensOf(site, n), []);
    NestOfTags(Tokens(Rendered(site, n)).value, []);
  }
}
