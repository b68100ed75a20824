/** The HTML that app/document.go renders for each type of node and mark, spelt out. */
module RenderedText {
  import opened Common
  import opened Html
  import opened Urls
  import opened Document
  import opened DocumentRenderer

  function Wrapped(tag: string, inner: string): string { "<" + tag + ">" + inner + "</" + tag + ">" }

  lemma ElementWraps(site: Site, n: Node, tag: string)
    requires Intent(site, n) == [Element(tag, [], IntentAll(site, n.content))]
    ensures Rendered(site, n) == Wrapped(tag, RenderedAll(site, n.content))
  {
    ElementPrints(tag, [], IntentAll(site, n.content));
    TagPrints(tag);
  }

  /** The block types and the elements around their children. */
  lemma BlocksRendered(site: Site, n: Node)
    ensures n.kind == "paragraph" ==> Rendered(site, n) == Wrapped("p", RenderedAll(site, n.content))
    ensures n.kind == "bulletList" ==> Rendered(site, n) == Wrapped("ul", RenderedAll(site, n.content))
    ensures n.kind == "orderedList" ==> Rendered(site, n) == Wrapped("ol", RenderedAll(site, n.content))
    ensures n.kind == "listItem" ==> Rendered(site, n) == Wrapped("li", RenderedAll(site, n.content))
    ensures n.kind == "blockquote" ==> Rendered(site, n) == Wrapped("blockquote", RenderedAll(site, n.content))
    ensures n.kind == "codeBlock" ==> Rendered(site, n) == Wrapped("pre", RenderedAll(site, n.content))
  {
    if KindOf(n.kind).Container? { ElementWraps(site, n, KindOf(n.kind).tag); }
  }

  /** A heading is one level below the document's own, from h2 to h4. The largest
      level there is wraps around when one is added to it. */
  lemma HeadingRendered(site: Site, n: Node)
    requires n.kind == "heading"
    ensures var l := n.attrs.level;
            var tag := if l <= 1 || l == 0x7fff_ffff_ffff_ffff then "h2" else if l == 2 then "h3" else "h4";
            Rendered(site, n) == Wrapped(tag, RenderedAll(site, n.content))
  {
    Kinds(n.kind);
    HeadingTagIs(n.attrs.level);
    ElementWraps(site, n, HeadingTag(n.attrs.level));
  }

  lemma HeadingTagIs(l: int64)
    ensures HeadingTag(l) == if l <= 1 || l == 0x7fff_ffff_ffff_ffff then "h2" else if l == 2 then "h3" else "h4"
  {}

  /** Breaks and rules stand alone, and text without marks is escaped. */
  lemma LeavesRendered(site: Site, n: Node)
    ensures n.kind == "hardBreak" ==> Rendered(site, n) == "<br>"
    ensures n.kind == "horizontalRule" ==> Rendered(site, n) == "<hr>"
    ensures n.kind == "text" && n.marks == [] ==> Rendered(site, n) == Esc(n.text)
  {
    VoidPrints0("br");
    VoidPrints0("hr");
    BreakLiterals();
    LeafPrints(n.text);
    Kinds(n.kind);
  }

  lemma BreakLiterals()
    ensures "<br>" == "<" + "br" + ">" && "<hr>" == "<" + "hr" + ">"
  {}

  const TYPES := {
    "text", "paragraph", "heading", "bulletList", "orderedList", "listItem", "blockquote", "codeBlock",
    "hardBreak", "horizontalRule", "da-emote", "da-deviation", "da-deviation-thumb", "da-gif", "da-mention"}

  /** A node of a type the renderer does not know renders its children. */
  lemma UnknownRendered(site: Site, n: Node)
    requires n.kind !in TYPES
    ensures Rendered(site, n) == RenderedAll(site, n.content)
  {
    assert KindOf(n.kind) == Other;
  }

  lemma GifRendered(site: Site, n: Node)
    requires n.kind == "da-gif"
    ensures Rendered(site, n)
         == if n.attrs.url == "" then "" else "<a target=\"_blank\" href=\"" + Esc(n.attrs.url) + "\">[GIF]</a>"
  {
    Kinds(n.kind);
    if n.attrs.url != "" { GifPrints(n.attrs.url); }
  }

  /** A mention links to the user's page on this instance. */
  lemma MentionRendered(site: Site, n: Node)
    requires n.kind == "da-mention"
    ensures var name := if n.attrs.username != "" then n.attrs.username else n.attrs.userUsername;
            Rendered(site, n)
            == if name == "" then ""
               else "<a href=\"" + Esc(site.host + site.uri + ("group_user" + "?type=about&q=" + name)) + "\">@"
                    + Esc(name) + "</a>"
  {
    Kinds(n.kind);
    var name := MentionName(n.attrs);
    if name != "" {
      MentionPrints(Url(site, ["group_user", "?type=about&q=", name]), name);
      MentionUrl(site, name);
    }
  }

  lemma MentionUrl(site: Site, name: string)
    ensures Url(site, ["group_user", "?type=about&q=", name])
         == site.host + site.uri + ("group_user" + "?type=about&q=" + name)
  {
    JoinedQuery("group_user", "?type=about&q=", name);
    Assoc("group_user", "?type=about&q=", name);
  }

  lemma JoinedQuery(first: string, query: string, value: string)
    requires first != "" && query != "" && query[0] == '?'
    ensures Indexable([first, query, value]) && Joined([first, query, value]) == first + query + value
  {
    JoinedCons(query, [value]);
    JoinedCons(first, [query, value]);
    assert [query] + [value] == [query, value] && [first] + [query, value] == [first, query, value];
    Assoc(first, query, value);
    assert first + "" == first && query + "" == query;
  }

  /** The image tag of an emote or artwork, after its own head. */
  function Image(head: string, src: string, caption: string): string {
    head + Esc(src) + "\" alt=\"" + Esc(caption) + "\" title=\"" + Esc(caption) + "\">"
  }

  /** An emote with an image of its own, captioned by its title, or by its code. */
  lemma EmoteRendered(site: Site, n: Node)
    requires n.kind == "da-emote"
    ensures var caption := if n.attrs.emoteTitle == "" then n.attrs.emoteCode else n.attrs.emoteTitle;
            var src := EmoteSrc(site, n.attrs);
            && (n.attrs.emoteUrl != "" ==> src == n.attrs.emoteUrl)
            && Rendered(site, n) == if src == "" then "" else Image("<img src=\"", src, caption)
  {
    Kinds(n.kind);
    var src := EmoteSrc(site, n.attrs);
    var caption := if n.attrs.emoteTitle == "" then n.attrs.emoteCode else n.attrs.emoteTitle;
    if src != "" {
      VoidPrints(ImgAttrs(src, caption));
      ImgLiterals();
      ImgAttrsPrint("<" + "img", src, caption);
    }
  }

  /** Colons, as many as asked for. */
  function Colons(n: nat): string { if n == 0 then "" else ":" + Colons(n - 1) }

  lemma {:induction false} TrimmedLeft(a: nat, name: string)
    requires name != "" ==> name[0] != ':'
    ensures TrimLeft(Colons(a) + name, ':') == name
  {
    if a == 0 {
      assert "" + name == name;
    } else {
      assert (Colons(a) + name)[0] == ':' && (Colons(a) + name)[1..] == Colons(a - 1) + name;
      TrimmedLeft(a - 1, name);
    }
  }

  lemma {:induction false} TrimmedRight(name: string, b: nat)
    requires name != "" ==> name[|name| - 1] != ':'
    ensures TrimRight(name + Colons(b), ':') == name
  {
    if b == 0 {
      assert name + "" == name;
    } else {
      ColonsLast(b);
      var all := name + Colons(b);
      assert all[|all| - 1] == ':' && all[..|all| - 1] == name + Colons(b - 1);
      TrimmedRight(name, b - 1);
    }
  }

  lemma {:induction false} ColonsLast(n: nat)
    requires n > 0
    ensures |Colons(n)| == n && Colons(n)[n - 1] == ':' && Colons(n)[..n - 1] == Colons(n - 1)
  {
    if n > 1 {
      ColonsLast(n - 1);
      assert Colons(n)[..n - 1] == ":" + Colons(n - 1)[..n - 2];
    } else {
      assert Colons(1) == ":" + "";
    }
  }

  /** One without, by its code less the colons around it, through the emote route. */
  lemma EmoteByCode(site: Site, a: Attrs, before: nat, name: string, after: nat)
    requires a.emoteUrl == "" && a.emoteCode == Colons(before) + name + Colons(after)
    requires name != "" && name[0] != ':' && name[|name| - 1] != ':'
    ensures var slash := if name[0] == '?' || name[0] == '&' then "" else "/";
            EmoteSrc(site, a) == site.host + site.uri + ("media" + "/" + ("emojitar" + slash + (name + "?type=e")))
  {
    Assoc(Colons(before), name, Colons(after));
    assert (name + Colons(after))[0] == name[0];
    TrimmedLeft(before, name + Colons(after));
    TrimmedRight(name, after);
    EmoteUrl(site, "media", "emojitar", name, "?type=e");
  }

  lemma EmoteUrl(site: Site, a: string, b: string, name: string, query: string)
    requires a != "" && b != "" && name != "" && query != "" && query[0] == '?'
    requires !QueryPart(a) && !QueryPart(b)
    ensures Indexable([a, b, name, query])
    ensures Url(site, [a, b, name, query])
         == site.host + site.uri + (a + "/" + (b + (if QueryPart(name) then "" else "/") + (name + query)))
  {
    JoinedCons(name, [query]);
    JoinedCons(b, [name, query]);
    JoinedCons(a, [b, name, query]);
    assert [name] + [query] == [name, query] && [b] + [name, query] == [b, name, query]
        && [a] + [b, name, query] == [a, b, name, query];
    assert name + "" == name;
  }

  /** An embedded artwork: nothing if it is hidden or did not decode; else its image,
      or its author and title, in a link if it has one. */
  lemma ArtworkRendered(site: Site, n: Node)
    requires n.kind == "da-deviation" || n.kind == "da-deviation-thumb"
    ensures Rendered(site, n)
         == if n.attrs.deviation.None? || !n.attrs.deviation.value.visible then ""
            else
              var d := n.attrs.deviation.value;
              var caption := d.author + " - " + d.title;
              var shown := if d.img == "" then Esc(caption) else Image("<img width=\"50%\" src=\"", d.img, caption);
              if d.link == "" then shown else "<a href=\"" + Esc(d.link) + "\">" + shown + "</a>"
  {
    Kinds(n.kind);
    if n.attrs.deviation.Some? && n.attrs.deviation.value.visible {
      var d := n.attrs.deviation.value;
      var shown := if d.img == "" then Leaf(Label(d))
        else Void("img", [Attr("width", "50%")] + ImgAttrs(d.img, Label(d)));
      ShownIs(d);
      if d.link != "" {
        ElementPrints("a", [Attr("href", d.link)], [shown]);
        AnchorPrints(d.link);
        TagPrints("a");
        CloseLiteral();
      }
    }
  }

  lemma ShownIs(d: Deviation)
    ensures var shown := if d.img == "" then Leaf(Label(d))
                         else Void("img", [Attr("width", "50%")] + ImgAttrs(d.img, Label(d)));
            PrintAll(FlatAll([shown]))
            == if d.img == "" then Esc(Label(d)) else Image("<img width=\"50%\" src=\"", d.img, Label(d))
  {
    ShownPrints(d);
  }

  // ----- marks -----

  /** What each mark wraps its text in. */
  lemma MarkIs(m: Mark, t: Tree)
    ensures m.kind == "bold" || m.kind == "strong" ==> Marked([m], t) == Element("b", [], [t])
    ensures m.kind == "italic" || m.kind == "em" ==> Marked([m], t) == Element("i", [], [t])
    ensures m.kind == "underline" ==> Marked([m], t) == Element("u", [], [t])
    ensures m.kind == "strike" || m.kind == "strikethrough" ==> Marked([m], t) == Element("s", [], [t])
    ensures m.kind == "code" ==> Marked([m], t) == Element("code", [], [t])
    ensures m.kind == "link" && m.href != "" ==>
              Marked([m], t)
              == Element("a", [Attr("target", "_blank"), Attr("href", WithoutTracking(m.href))], [t])
    ensures m.kind == "link" && m.href == "" ==> Marked([m], t) == t
    ensures m.kind !in {"bold", "strong", "italic", "em", "underline", "strike", "strikethrough", "code", "link"} ==>
              Marked([m], t) == t
  {
    assert [m][1..] == [];
  }

  /** Marks nest in order, the first outermost. */
  lemma {:induction false} MarksNest(a: seq<Mark>, b: seq<Mark>, t: Tree)
    ensures Marked(a + b, t) == Marked(a, Marked(b, t))
  {
    if a == [] {
      assert a + b == b;
    } else {
      MarksNest(a[1..], b, t);
      assert (a + b)[0] == a[0] && (a + b)[1..] == a[1..] + b;
    }
  }

  /** A link goes where it says, and not through the outgoing redirector. */
  lemma TrackingGone(u: string)
    ensures WithoutTracking("https://www.deviantart.com/users/outgoing?" + u) == u
    ensures !("https://www.deviantart.com/users/outgoing?" <= u) ==> WithoutTracking(u) == u
  {}
}
