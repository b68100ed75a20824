/** Reading a rendered document back into a tree with a stack of open elements:
    tags open and close them, and adjacent text runs together. */
module ParsedDocument {
  import opened Common
  import opened Html
  import opened Urls
  import opened Document

  /** An element still open: its tag, and the siblings that came before it. */
  datatype Frame = Frame(tag: string, attrs: seq<Attr>, before: seq<Tree>)

  /** Open elements, innermost first, and what the innermost holds so far; or
      a closing tag has not matched. */
  datatype Builder = Building(open: seq<Frame>, kids: seq<Tree>) | Broken

  function WithText(kids: seq<Tree>, s: string): seq<Tree> {
    var n := |kids| - 1;
    if s == "" then kids
    else if kids != [] && kids[n].Leaf? then kids[..n] + [Leaf(kids[n].s + s)]
    else kids + [Leaf(s)]
  }

  function Put(b: Builder, s: string): Builder {
    if b.Broken? then b else b.(kids := WithText(b.kids, s))
  }

  function Feed1(b: Builder, t: Token): Builder {
    if b.Broken? then b
    else match t
      case Text(s) => Put(b, s)
      case Open(tag, attrs) =>
        if IsVoid(tag) then b.(kids := b.kids + [Void(tag, attrs)])
        else Building([Frame(tag, attrs, b.kids)] + b.open, [])
      case Close(tag) =>
        if b.open == [] || b.open[0].tag != tag then Broken
        else Building(b.open[1..], b.open[0].before + [Element(tag, b.open[0].attrs, b.kids)])
  }

  function Built(b: Builder, ts: seq<Token>): Builder
    decreases |ts|
  {
    if ts == [] then b else Built(Feed1(b, ts[0]), ts[1..])
  }

  const START := Building([], [])

  /** The tree of a text, if it scans and every element it opens is closed. */
  function Parse(text: string): Option<seq<Tree>> {
    match Tokens(text)
    case None => None
    case Some(ts) =>
      var b := Built(START, ts);
      if b.Building? && b.open == [] then Some(b.kids) else None
  }

  /** Siblings with adjacent text run together and empty text dropped, all the way down. */
  function Normal(ts: seq<Tree>): seq<Tree> { Grown([], ts) }

  function Grown(kids: seq<Tree>, ts: seq<Tree>): seq<Tree>
    decreases ts
  {
    if ts == [] then kids else Grown(Grown1(kids, ts[0]), ts[1..])
  }

  function Grown1(kids: seq<Tree>, t: Tree): seq<Tree>
    decreases t
  {
    match t
    case Leaf(s) => WithText(kids, s)
    case Void(_, _) => kids + [t]
    case Element(tag, attrs, inner) => kids + [Element(tag, attrs, Grown([], inner))]
  }

  lemma {:induction false} BuiltAppend(b: Builder, x: seq<Token>, y: seq<Token>)
    ensures Built(b, x + y) == Built(Built(b, x), y)
    decreases |x|
  {
    if x == [] {
      assert x + y == y;
    } else {
      BuiltAppend(Feed1(b, x[0]), x[1..], y);
      assert (x + y)[1..] == x[1..] + y;
    }
  }

  lemma BuiltOne(b: Builder, t: Token)
    ensures Built(b, [t]) == Feed1(b, t)
  {
    assert [t][1..] == [];
  }

  // ----- merging text makes no difference to the tree -----

  lemma PutTwice(b: Builder, x: string, y: string)
    ensures Put(Put(b, x), y) == Put(b, x + y)
  {
    if y == "" {
      assert x + y == x;
    } else if x == "" {
      assert x + y == y;
    } else if b.Building? {
      var n := |b.kids| - 1;
      if b.kids != [] && b.kids[n].Leaf? {
        assert b.kids[n].s + x + y == b.kids[n].s + (x + y);
        assert (b.kids[..n] + [Leaf(b.kids[n].s + x)])[..n] == b.kids[..n];
      } else {
        assert (b.kids + [Leaf(x)])[..n + 1] == b.kids;
      }
    }
  }

  lemma BuiltFlushed(b: Builder, out: seq<Token>, text: string)
    ensures Built(b, Flushed(out, text)) == Put(Built(b, out), text)
  {
    if text != "" {
      BuiltAppend(b, out, [Text(text)]);
      BuiltOne(Built(b, out), Text(text));
    }
  }

  lemma {:induction false} FeedBuilds(b: Builder, out: seq<Token>, text: string, ts: seq<Token>)
    ensures var (out', text') := Feed(out, text, ts);
            Put(Built(b, out'), text') == Built(Put(Built(b, out), text), ts)
    decreases |ts|
  {
    if ts != [] {
      if ts[0].Text? {
        FeedBuilds(b, out, text + ts[0].s, ts[1..]);
        PutTwice(Built(b, out), text, ts[0].s);
      } else {
        var flushed := Flushed(out, text);
        FeedBuilds(b, flushed + [ts[0]], "", ts[1..]);
        BuiltAppend(b, flushed, [ts[0]]);
        BuiltOne(Built(b, flushed), ts[0]);
        BuiltFlushed(b, out, text);
      }
    }
  }

  lemma MergeBuilds(ts: seq<Token>)
    ensures Built(START, Merge(ts)) == Built(START, ts)
  {
    var (out, text) := Feed([], "", ts);
    FeedBuilds(START, [], "", ts);
    BuiltFlushed(START, out, text);
  }

  // ----- the tokens of a tree build that tree -----

  lemma {:induction false} FlatBuilds(open: seq<Frame>, kids: seq<Tree>, t: Tree)
    requires WellTagged(t)
    ensures Built(Building(open, kids), Flat(t)) == Building(open, Grown1(kids, t))
    decreases t
  {
    match t {
      case Leaf(s) => BuiltOne(Building(open, kids), Text(s));
      case Void(tag, attrs) => BuiltOne(Building(open, kids), Open(tag, attrs));
      case Element(tag, attrs, inner) =>
        var b := Building(open, kids);
        var inside := Building([Frame(tag, attrs, kids)] + open, []);
        FlatAllBuilds(inside.open, [], inner);
        BuiltOne(b, Open(tag, attrs));
        BuiltOne(Building(inside.open, Grown([], inner)), Close(tag));
        BuiltAppend(b, [Open(tag, attrs)], FlatAll(inner));
        BuiltAppend(b, [Open(tag, attrs)] + FlatAll(inner), [Close(tag)]);
        assert inside.open[1..] == open;
    }
  }

  lemma {:induction false} FlatAllBuilds(open: seq<Frame>, kids: seq<Tree>, ts: seq<Tree>)
    requires AllWellTagged(ts)
    ensures Built(Building(open, kids), FlatAll(ts)) == Building(open, Grown(kids, ts))
    decreases ts
  {
    if ts != [] {
      FlatBuilds(open, kids, ts[0]);
      FlatAllBuilds(open, Grown1(kids, ts[0]), ts[1..]);
      BuiltAppend(Building(open, kids), Flat(ts[0]), FlatAll(ts[1..]));
    }
  }

  // ----- running text together is all that Normal does -----

  lemma WithTextKeeps(kids: seq<Tree>, s: string)
    ensures TextOf(FlatAll(WithText(kids, s))) == TextOf(FlatAll(kids)) + s
    ensures TagsOf(FlatAll(WithText(kids, s))) == TagsOf(FlatAll(kids))
  {
    var n := |kids| - 1;
    if s == "" {
      assert TextOf(FlatAll(kids)) + s == TextOf(FlatAll(kids));
    } else if kids != [] && kids[n].Leaf? {
      var x := kids[n].s;
      assert kids == kids[..n] + [Leaf(x)];
      AppendLeaf(kids[..n], x);
      AppendLeaf(kids[..n], x + s);
      Assoc(TextOf(FlatAll(kids[..n])), x, s);
    } else {
      AppendLeaf(kids, s);
    }
  }

  lemma AppendLeaf(kids: seq<Tree>, s: string)
    ensures TextOf(FlatAll(kids + [Leaf(s)])) == TextOf(FlatAll(kids)) + s
    ensures TagsOf(FlatAll(kids + [Leaf(s)])) == TagsOf(FlatAll(kids))
  {
    AppendTree(kids, Leaf(s));
    assert Flat(Leaf(s)) == [Text(s)] && [Text(s)][1..] == [];
  }

  lemma AppendTree(kids: seq<Tree>, t: Tree)
    ensures TextOf(FlatAll(kids + [t])) == TextOf(FlatAll(kids)) + TextOf(Flat(t))
    ensures TagsOf(FlatAll(kids + [t])) == TagsOf(FlatAll(kids)) + TagsOf(Flat(t))
  {
    FlatAllAppend(kids, [t]);
    Single(t);
    TextAppend(FlatAll(kids), Flat(t));
    TagsAppend(FlatAll(kids), Flat(t));
  }

  lemma ElementTags(tag: string, attrs: seq<Attr>, kids: seq<Tree>)
    ensures TagsOf(Flat(Element(tag, attrs, kids))) == [Open(tag, attrs)] + TagsOf(FlatAll(kids)) + [Close(tag)]
  {
    TagsAppend([Open(tag, attrs)], FlatAll(kids));
    TagsAppend([Open(tag, attrs)] + FlatAll(kids), [Close(tag)]);
    assert [Open(tag, attrs)][1..] == [] && [Close(tag)][1..] == [];
  }

  lemma {:induction false} Grown1Keeps(kids: seq<Tree>, t: Tree)
    ensures TextOf(FlatAll(Grown1(kids, t))) == TextOf(FlatAll(kids)) + TextOf(Flat(t))
    ensures TagsOf(FlatAll(Grown1(kids, t))) == TagsOf(FlatAll(kids)) + TagsOf(Flat(t))
    decreases t
  {
    match t {
      case Leaf(s) =>
        WithTextKeeps(kids, s);
        OneText(s);
      case Void(_, _) => AppendTree(kids, t);
      case Element(tag, attrs, inner) =>
        GrownKeeps([], inner);
        SameInside(tag, attrs, inner, Normal(inner));
        AppendTree(kids, Element(tag, attrs, Normal(inner)));
    }
  }

  lemma OneText(s: string)
    ensures TextOf(Flat(Leaf(s))) == s && TagsOf(Flat(Leaf(s))) == []
  {
    assert [Text(s)][1..] == [];
  }

  lemma SameInside(tag: string, attrs: seq<Attr>, x: seq<Tree>, y: seq<Tree>)
    requires TextOf(FlatAll(y)) == "" + TextOf(FlatAll(x)) && TagsOf(FlatAll(y)) == [] + TagsOf(FlatAll(x))
    ensures TextOf(Flat(Element(tag, attrs, y))) == TextOf(Flat(Element(tag, attrs, x)))
    ensures TagsOf(Flat(Element(tag, attrs, y))) == TagsOf(Flat(Element(tag, attrs, x)))
  {
    ElementText(tag, attrs, x);
    ElementText(tag, attrs, y);
    ElementTags(tag, attrs, x);
    ElementTags(tag, attrs, y);
  }

  lemma {:induction false} GrownKeeps(kids: seq<Tree>, ts: seq<Tree>)
    ensures TextOf(FlatAll(Grown(kids, ts))) == TextOf(FlatAll(kids)) + TextOf(FlatAll(ts))
    ensures TagsOf(FlatAll(Grown(kids, ts))) == TagsOf(FlatAll(kids)) + TagsOf(FlatAll(ts))
    decreases ts
  {
    if ts != [] {
      Grown1Keeps(kids, ts[0]);
      GrownKeeps(Grown1(kids, ts[0]), ts[1..]);
      TextAppend(Flat(ts[0]), FlatAll(ts[1..]));
      TagsAppend(Flat(ts[0]), FlatAll(ts[1..]));
      Assoc(TextOf(FlatAll(kids)), TextOf(Flat(ts[0])), TextOf(FlatAll(ts[1..])));
      Assoc(TagsOf(FlatAll(kids)), TagsOf(Flat(ts[0])), TagsOf(FlatAll(ts[1..])));
    }
  }

  /** No empty text and no two texts side by side, at any depth. */
  ghost predicate Separated(ts: seq<Tree>)
    decreases ts
  {
    forall i :: 0 <= i < |ts| ==>
      && ts[i] != Leaf("") && (i > 0 ==> !(ts[i - 1].Leaf? && ts[i].Leaf?))
      && (ts[i].Element? ==> Separated(ts[i].kids))
  }

  lemma {:induction false} Grown1Separated(kids: seq<Tree>, t: Tree)
    requires Separated(kids)
    ensures Separated(Grown1(kids, t))
    decreases t
  {
    if t.Element? { GrownSeparated([], t.kids); }
  }

  lemma {:induction false} GrownSeparated(kids: seq<Tree>, ts: seq<Tree>)
    requires Separated(kids)
    ensures Separated(Grown(kids, ts))
    decreases ts
  {
    if ts != [] {
      Grown1Separated(kids, ts[0]);
      GrownSeparated(Grown1(kids, ts[0]), ts[1..]);
    }
  }

  /** Normalising keeps every tag with its attributes and all the text, in order,
      and leaves no empty and no adjacent text. */
  lemma NormalKeeps(ts: seq<Tree>)
    ensures TextOf(FlatAll(Normal(ts))) == TextOf(FlatAll(ts))
    ensures TagsOf(FlatAll(Normal(ts))) == TagsOf(FlatAll(ts))
    ensures Separated(Normal(ts))
  {
    GrownKeeps([], ts);
    GrownSeparated([], ts);
    assert TagsOf(FlatAll([])) + TagsOf(FlatAll(ts)) == TagsOf(FlatAll(ts));
  }

  /** Whatever strings the document holds, parsing what is rendered gives back
      exactly the elements it stands for, nested as intended, up to adjacent text. */
  lemma ParsedBack(site: Site, n: Node)
    ensures Parse(Rendered(site, n)) == Some(Normal(Intent(site, n)))
  {
    RenderedFaithfully(site, n);
    IntentIsWellTagged(site, n);
    MergeBuilds(TokensOf(site, n));
    FlatAllBuilds([], [], Intent(site, n));
  }
}
