/** Exactly which media URLs come back as they were, blur demands included. Where a
    blur is inserted into what the router hands on, counting characters shows that
    it cannot make up for anything the way there has lost. */
module MediaRoundTrip {
  import opened Common
  import opened Paths
  import opened Urls
  import opened MediaUrl

  // ----- counting a character -----

  function Num(s: string, c: char): nat {
    if s == "" then 0 else (if s[0] == c then 1 else 0) + Num(s[1..], c)
  }

  lemma {:induction false} NumAppend(a: string, b: string, c: char)
    ensures Num(a + b, c) == Num(a, c) + Num(b, c)
  {
    if a == "" {
      assert a + b == b;
    } else {
      NumAppend(a[1..], b, c);
      assert (a + b)[1..] == a[1..] + b && (a + b)[0] == a[0];
    }
  }

  lemma {:induction false} NumFree(s: string, c: char)
    ensures Num(s, c) == 0 <==> Free(s, c)
  {
    if s != "" {
      NumFree(s[1..], c);
      FreeJoin([s[0]], s[1..], c);
      assert s == [s[0]] + s[1..];
    }
  }

  lemma NumPrefix(p: string, s: string, c: char)
    requires p <= s
    ensures Num(p, c) <= Num(s, c)
  {
    assert s == p + s[|p|..];
    NumAppend(p, s[|p|..], c);
  }

  lemma NumSuffix(s: string, k: nat, c: char)
    requires k <= |s|
    ensures Num(s[k..], c) <= Num(s, c)
  {
    assert s == s[..k] + s[k..];
    NumAppend(s[..k], s[k..], c);
  }

  function NumAll(segs: seq<string>, c: char): nat {
    if segs == [] then 0 else Num(segs[0], c) + NumAll(segs[1..], c)
  }

  lemma {:induction false} NumAllAppend(a: seq<string>, b: seq<string>, c: char)
    ensures NumAll(a + b, c) == NumAll(a, c) + NumAll(b, c)
  {
    if a == [] {
      assert a + b == b;
    } else {
      NumAllAppend(a[1..], b, c);
      assert (a + b)[1..] == a[1..] + b && (a + b)[0] == a[0];
    }
  }

  lemma {:induction false} NumJoin(segs: seq<string>, c: char)
    requires c != '/'
    ensures Num(Join(segs), c) == NumAll(segs, c)
  {
    if |segs| > 1 {
      NumJoin(segs[1..], c);
      NumAppend(segs[0] + "/", Join(segs[1..]), c);
      NumAppend(segs[0], "/", c);
    }
  }

  // ----- cleaning adds nothing but slashes -----

  lemma {:induction false} NumKept(done: seq<string>, segs: seq<string>, c: char)
    ensures NumAll(Kept(done, segs), c) <= NumAll(done, c) + NumAll(segs, c)
    decreases |segs|
  {
    if segs != [] {
      var rest := segs[1..];
      if segs[0] == ".." {
        var popped := if done == [] then [] else done[..|done| - 1];
        if done != [] {
          assert done == popped + [done[|done| - 1]];
          NumAllAppend(popped, [done[|done| - 1]], c);
        }
        NumKept(popped, rest, c);
      } else if Normal(segs[0]) {
        NumAllAppend(done, [segs[0]], c);
        NumKept(done + [segs[0]], rest, c);
      } else {
        NumKept(done, rest, c);
      }
    }
  }

  lemma NumRebuilt(segs: seq<string>, slash: bool, c: char)
    requires c != '/'
    ensures Num(Rebuilt(segs, slash), c) == NumAll(segs, c)
  {
    var end := if slash && segs != [] then "/" else "";
    NumAppend("/" + Join(segs), end, c);
    NumAppend("/", Join(segs), c);
    NumJoin(segs, c);
  }

  lemma NumClean(s: string, c: char)
    requires c != '/'
    ensures Num(CleanAfterSlash(s), c) <= Num("/" + s, c)
  {
    NumRebuilt(Kept([], Split(s)), EndsInSlash(s), c);
    NumKept([], Split(s), c);
    NumJoin(Split(s), c);
    JoinSplit(s);
    NumAppend("/", s, c);
  }

  // ----- decoding that loses no % -----

  predicate Escape25(s: string) { |s| >= 3 && s[0] == '%' && s[1] == '2' && s[2] == '5' }

  /** Every %25 read as the % it stands for, and nothing else touched. */
  function Unescaped(s: string): string
    decreases |s|
  {
    if s == "" then ""
    else if Escape25(s) then ['%'] + Unescaped(s[3..])
    else [s[0]] + Unescaped(s[1..])
  }

  lemma HexNotPercent(c: char)
    ensures Hex(c) < 16 && (Hex(c) >= 0 ==> c != '%') && (Hex(c) == 2 ==> c == '2') && (Hex(c) == 5 ==> c == '5')
  {}

  /** Decoding never adds a %, and keeps their number only if there is nothing to
      decode but %25. */
  lemma {:induction false} DecodeNum(s: string)
    requires PctDecode(s).Some?
    ensures Num(PctDecode(s).value, '%') <= Num(s, '%')
    ensures Num(PctDecode(s).value, '%') == Num(s, '%') ==> PctDecode(s).value == Unescaped(s)
    decreases |s|
  {
    if s != "" {
      if s[0] == '%' {
        var rest := s[3..];
        DecodeNum(rest);
        HexNotPercent(s[1]);
        HexNotPercent(s[2]);
        assert s == [s[0]] + ([s[1]] + ([s[2]] + rest));
        var e := (16 * Hex(s[1]) + Hex(s[2])) as char;
        DecodeStep(e, PctDecode(rest).value);
        ThreeNum(s, '%');
        if e == '%' { assert Hex(s[1]) == 2 && Hex(s[2]) == 5; }
      } else {
        DecodeNum(s[1..]);
        DecodeStep(s[0], PctDecode(s[1..]).value);
      }
    }
  }

  lemma DecodeStep(e: char, rest: string)
    ensures Num([e] + rest, '%') == (if e == '%' then 1 else 0) + Num(rest, '%')
  {
    assert ([e] + rest)[1..] == rest;
  }

  lemma ThreeNum(s: string, c: char)
    requires |s| >= 3
    ensures Num(s, c) == (if s[0] == c then 1 else 0) + (if s[1] == c then 1 else 0)
                       + (if s[2] == c then 1 else 0) + Num(s[3..], c)
  {
    assert s[1..][1..] == s[2..] && s[2..][1..] == s[3..];
    assert Num(s[1..], c) == (if s[1] == c then 1 else 0) + Num(s[2..], c);
    assert Num(s[2..], c) == (if s[2] == c then 1 else 0) + Num(s[3..], c);
  }

  /** Reading %25 as % keeps the number of every character but 2 and 5. */
  lemma {:induction false} UnescapedNum(s: string, c: char)
    requires c != '2' && c != '5'
    ensures Num(Unescaped(s), c) == Num(s, c)
    decreases |s|
  {
    if s != "" {
      if Escape25(s) {
        UnescapedNum(s[3..], c);
        ThreeNum(s, c);
        NumAppend(['%'], Unescaped(s[3..]), c);
      } else {
        UnescapedNum(s[1..], c);
        NumAppend([s[0]], Unescaped(s[1..]), c);
      }
    }
  }

  lemma {:induction false} UnescapedPlain(a: string, b: string)
    requires Free(a, '%')
    ensures Unescaped(a + b) == a + Unescaped(b)
  {
    if a == "" {
      assert a + b == b && a + Unescaped(b) == Unescaped(b);
    } else {
      UnescapedPlain(a[1..], b);
      assert (a + b)[0] == a[0] && (a + b)[1..] == a[1..] + b;
      Assoc([a[0]], a[1..], Unescaped(b));
      assert [a[0]] + a[1..] == a;
    }
  }

  /** ... and works on each segment by itself. */
  lemma {:induction false} UnescapedMeets(a: string, b: string)
    requires Free(a, '/') && b != "" && b[0] == '/'
    ensures Unescaped(a + b) == Unescaped(a) + Unescaped(b)
    decreases |a|
  {
    if a == "" {
      assert a + b == b && "" + Unescaped(b) == Unescaped(b);
    } else {
      var n := if Escape25(a) then 3 else 1;
      MeetsAt(a, b, n);
      UnescapedMeets(a[n..], b);
      Assoc([a[0]], Unescaped(a[n..]), Unescaped(b));
    }
  }

  lemma MeetsAt(a: string, b: string, n: nat)
    requires Free(a, '/') && b != "" && b[0] == '/' && n <= |a| && a != ""
    ensures (a + b)[n..] == a[n..] + b && (a + b)[0] == a[0] && Free(a[n..], '/')
    ensures Escape25(a + b) <==> Escape25(a)
  {
    assert (a + b)[|a|] == '/';
  }

  lemma UnescapedSlash(a: string, b: string)
    requires Free(a, '/')
    ensures Unescaped(a + "/" + b) == Unescaped(a) + "/" + Unescaped(b)
  {
    Assoc(a, "/", b);
    UnescapedMeets(a, "/" + b);
    UnescapedPlain("/", b);
    Assoc(Unescaped(a), "/", Unescaped(b));
  }

  lemma {:induction false} UnescapedFree(s: string)
    requires Free(s, '/')
    ensures Free(Unescaped(s), '/')
  {
    NumFree(s, '/');
    UnescapedNum(s, '/');
    NumFree(Unescaped(s), '/');
  }

  function UnescapedAll(segs: seq<string>): seq<string> {
    if segs == [] then [] else [Unescaped(segs[0])] + UnescapedAll(segs[1..])
  }

  lemma {:induction false} UnescapedSplit(s: string)
    ensures Split(Unescaped(s)) == UnescapedAll(Split(s))
    decreases |s|
  {
    var i := IndexChar(s, '/');
    if i < 0 {
      UnescapedFree(s);
      SplitAlone(Unescaped(s));
      assert [s][1..] == [];
    } else {
      var first, rest := s[..i], s[i + 1..];
      CutAt(s, i);
      UnescapedSlash(first, rest);
      UnescapedFree(first);
      SplitCons(Unescaped(first), Unescaped(rest));
      UnescapedSplit(rest);
      assert ([first] + Split(rest))[1..] == Split(rest);
    }
  }

  lemma UnescapedNormal(seg: string)
    ensures Normal(seg) ==> Normal(Unescaped(seg))
    ensures seg == "" ==> Unescaped(seg) == ""
  {
    if Normal(seg) {
      if Escape25(seg) {
        assert Unescaped(seg)[0] == '%';
      } else if seg[0] == '.' && |seg| > 1 && seg[1] == '.' {
        assert |seg| > 2 && !(Escape25(seg[1..]));
        assert seg[1..][1..] == seg[2..];
        assert Unescaped(seg) == [seg[0]] + ([seg[1]] + Unescaped(seg[2..]));
        UnescapedLength(seg[2..]);
      } else if seg[0] == '.' {
        assert |seg| > 1;
        UnescapedLength(seg[1..]);
        assert Unescaped(seg[1..])[0] == (if Escape25(seg[1..]) then '%' else seg[1]);
      }
    }
  }

  lemma UnescapedLength(s: string)
    ensures s != "" ==> Unescaped(s) != ""
  {}

  lemma {:induction false} UnescapedTidy(segs: seq<string>)
    requires Tidy(segs)
    ensures Tidy(UnescapedAll(segs)) && |UnescapedAll(segs)| == |segs|
  {
    if segs != [] {
      TidySuffix(segs, 1);
      UnescapedTidy(segs[1..]);
      UnescapedNormal(segs[0]);
    }
  }

  // ----- what the router hands on -----

  /** The path from the base path's last slash on, split. */
  function FromBase(uri: string, path: string): seq<string>
    requires uri != "" && |path| > |uri|
  {
    Split(path[|uri| - 1..])
  }

  lemma RoutedSegments(uri: string, path: string, subdomain: string, rest: string)
    requires uri != "" && RouteOf(Split(Relative(uri, path))) == ToMedia(subdomain, rest) && rest != ""
    ensures |path| > |uri| && |FromBase(uri, path)| > 4
    ensures FromBase(uri, path)[3] == subdomain && rest == Join(FromBase(uri, path)[4..])
  {
    SplitCons("", "");
    SplitAlone("");
  }

  /** Of a tidy path the router hands on a tidy rest, with no more of any character
      than the path had. */
  lemma RoutedRest(uri: string, path: string, subdomain: string, rest: string)
    requires uri != "" && path != "" && path[0] == '/' && Tidy(Split(path[1..]))
    requires RouteOf(Split(Relative(uri, path))) == ToMedia(subdomain, rest) && rest != ""
    ensures Tidy(Split(rest))
  {
    RoutedSegments(uri, path, subdomain, rest);
    var segs := FromBase(uri, path);
    var before := SuffixSegments(path, |uri| - 1);
    SplitRooted(path);
    assert Split(Join(segs[4..])) == segs[4..] by {
      SplitNoSlashes(path[|uri| - 1..]);
      SplitJoin(segs[4..]);
    }
    LastSegmentsTidy(before, segs, Split(path[1..]));
  }

  lemma SplitRooted(path: string)
    requires path != "" && path[0] == '/'
    ensures Split(path) == [""] + Split(path[1..])
  {
    assert path == "" + "/" + path[1..];
    SplitCons("", path[1..]);
  }

  lemma LastSegmentsTidy(before: seq<string>, segs: seq<string>, tidy: seq<string>)
    requires |segs| > 4 && [""] + tidy == before + segs[1..] && Tidy(tidy)
    ensures Tidy(segs[4..])
  {
    var n := |before| + 2;
    assert tidy == ([""] + tidy)[1..];
    assert tidy[n..] == segs[4..];
    TidySuffix(tidy, n);
  }

  lemma RoutedNum(uri: string, path: string, subdomain: string, rest: string, c: char)
    requires uri != "" && c != '/' && RouteOf(Split(Relative(uri, path))) == ToMedia(subdomain, rest) && rest != ""
    ensures Num(rest, c) <= Num(path, c)
  {
    RoutedSegments(uri, path, subdomain, rest);
    var segs := FromBase(uri, path);
    JoinSplit(path[|uri| - 1..]);
    NumLast(segs, c);
    NumSuffix(path, |uri| - 1, c);
  }

  lemma NumLast(segs: seq<string>, c: char)
    requires c != '/' && |segs| > 4
    ensures Num(Join(segs[4..]), c) <= Num(Join(segs), c)
  {
    NumJoin(segs, c);
    NumJoin(segs[4..], c);
    assert segs == segs[..4] + segs[4..];
    NumAllAppend(segs[..4], segs[4..], c);
  }

  // ----- what the handler sees, when no % is lost -----

  lemma ReceivedPercents(text: string)
    requires text != "" && text[0] == '/' && Received(text).Some?
    ensures Num(Received(text).value, '%') <= Num(text, '%')
    ensures Num(Received(text).value, '%') == Num(text, '%') ==>
              Received(text).value == Unescaped(CleanPath(PathPart(text)))
  {
    var path := PathPart(text);
    assert path != "" && path[0] == '/' && path == "/" + path[1..];
    NumPrefix(path, text, '%');
    NumClean(path[1..], '%');
    DecodeNum(CleanPath(path));
  }

  /** It is tidy then, and has no ? and no #. */
  lemma ReceivedTidy(text: string)
    requires text != "" && text[0] == '/' && Received(text).Some?
    requires Num(Received(text).value, '%') == Num(text, '%')
    ensures var d := Received(text).value;
            d != "" && d[0] == '/' && Tidy(Split(d[1..])) && Free(d, '?') && Free(d, '#')
  {
    var path := PathPart(text);
    var d := Received(text).value;
    ReceivedPercents(text);
    var body := CleanBody(path);
    UnescapedPlain("/", body);
    UnescapedSplit(body);
    UnescapedTidy(Split(body));
    assert d == "/" + Unescaped(body) && d[1..] == Unescaped(body);
    ReceivedFree(path, '?');
    ReceivedFree(path, '#');
  }

  lemma ReceivedFree(path: string, c: char)
    requires path != "" && path[0] == '/' && Free(path, c) && c != '/' && c != '2' && c != '5'
    ensures Free(Unescaped(CleanPath(path)), c)
  {
    assert path == "/" + path[1..];
    NumFree(path, c);
    NumClean(path[1..], c);
    UnescapedNum(CleanPath(path), c);
    NumFree(Unescaped(CleanPath(path)), c);
  }

  // ----- a path with a blur put in -----

  function BlurOp(n: nat): string { ",blur_" + Digits(n) }

  lemma {:induction false} DigitsPlain(n: nat, c: char)
    requires !('0' <= c <= '9')
    ensures Free(Digits(n), c)
  {
    if n >= 10 { DigitsPlain(n / 10, c); }
  }

  lemma BlurOpNum(n: nat)
    ensures Num(BlurOp(n), '%') == 0 && Num(BlurOp(n), ',') == 1
    ensures Free(BlurOp(n), '/') && Free(BlurOp(n), '?') && Free(BlurOp(n), '#') && |BlurOp(n)| > 2
  {
    DigitsPlain(n, '%');
    DigitsPlain(n, ',');
    DigitsPlain(n, '/');
    DigitsPlain(n, '?');
    DigitsPlain(n, '#');
    NumFree(BlurOp(n), '%');
    var rest := "blur_" + Digits(n);
    assert BlurOp(n) == [','] + rest && BlurOp(n)[1..] == rest;
    NumFree(rest, ',');
  }

  /** path is rest with a blur put in. */
  ghost predicate Inserted(rest: string, path: string, n: nat) {
    exists pre, ops, end :: PlainFit(rest, pre, ops, end) && path == pre + (ops + BlurOp(n)) + end
  }

  lemma InsertedByBlur(rest: string, n: nat)
    requires AddBlur(rest, n) != rest
    ensures Inserted(rest, AddBlur(rest, n), n)
  {
    BlurIff(rest, n);
    var pre, ops, end :| PlainFit(rest, pre, ops, end);
    BlurAdded(rest, pre, ops, end, n);
    Assoc(pre + ops, ",blur_", Digits(n));
    Assoc(pre, ops, BlurOp(n));
  }

  lemma InsertedNum(rest: string, path: string, n: nat, c: char)
    requires Inserted(rest, path, n)
    ensures Num(path, c) == Num(rest, c) + Num(BlurOp(n), c)
  {
    var pre, ops, end :| PlainFit(rest, pre, ops, end) && path == pre + (ops + BlurOp(n)) + end;
    NumAppend(pre + ops, end, c);
    NumAppend(pre, ops, c);
    NumAppend(pre + (ops + BlurOp(n)), end, c);
    NumAppend(pre, ops + BlurOp(n), c);
    NumAppend(ops, BlurOp(n), c);
  }

  lemma InsertedTidy(rest: string, path: string, n: nat)
    requires Inserted(rest, path, n) && Tidy(Split(rest))
    ensures Tidy(Split(path)) && path != ""
  {
    var pre, ops, end :| PlainFit(rest, pre, ops, end) && path == pre + (ops + BlurOp(n)) + end;
    BlurOpNum(n);
    FitEnds(rest, pre, ops, end);
    var tail := end[1..];
    assert end == "/" + tail;
    JoinSplit(tail);
    FitSegments(pre, ops, tail);
    FitSegments(pre, ops + BlurOp(n), tail);
    TidyReplace(Dirs(pre), ops, ops + BlurOp(n), Split(tail));
  }

  lemma FitEnds(path: string, pre: string, ops: string, rest: string)
    requires PlainFit(path, pre, ops, rest)
    ensures pre != "" && pre[|pre| - 1] == '/'
  {
    var start := IndexOf(path, FIT);
    assert path[start..start + |FIT|][|FIT| - 1] == '/';
    assert path[|pre| - 1] == pre[|pre| - 1];
  }

  lemma FitSegments(pre: string, ops: string, tail: string)
    requires EndsInSlash(pre) && Free(ops, '/')
    ensures Split(pre + ops + ("/" + tail)) == Dirs(pre) + ([ops] + Split(tail))
  {
    Assoc(ops, "/", tail);
    Assoc(pre, ops, "/" + tail);
    SplitDirs(pre, ops + "/" + tail);
    SplitCons(ops, tail);
  }

  // ----- a blur never makes up for what is lost -----

  /** The label and the path of the instance URL's text, as they are in it. */
  function Pasted(subdomain: string, path: string): string { subdomain + Separator(path) + path }

  lemma PastedTidy(subdomain: string, path: string)
    requires ValidLabel(subdomain) && path != "" && Tidy(Split(path))
    ensures Tidy(Split(Pasted(subdomain, path)))
  {
    LabelPlain(subdomain);
    LabelNormal(subdomain);
    if !QueryPart(path) {
      SplitCons(subdomain, path);
      TidyAfter([subdomain], Split(path));
    } else {
      assert subdomain + "" + path == subdomain + path;
      GluedTidy(subdomain, path);
    }
  }

  lemma GluedTidy(subdomain: string, path: string)
    requires ValidLabel(subdomain) && Free(subdomain, '/') && Tidy(Split(path))
    ensures Tidy(Split(subdomain + path))
  {
    var i := IndexChar(path, '/');
    if i < 0 {
      SplitAlone(path);
      SplitAlone(subdomain + path);
      GluedNormal(subdomain, path);
    } else {
      var first, rest := path[..i], path[i + 1..];
      CutAt(path, i);
      SplitCons(first, rest);
      SplitCons(subdomain + first, rest);
      Assoc(subdomain, first + "/", rest);
      Assoc(subdomain, first, "/");
      GluedNormal(subdomain, first);
      JoinSplit(rest);
      TidyHead(first, subdomain + first, Split(rest));
    }
  }

  lemma TidyHead(x: string, y: string, rest: seq<string>)
    requires Tidy([x] + rest) && rest != [] && Normal(y)
    ensures Tidy([y] + rest)
  {
    assert [] + ([x] + rest) == [x] + rest && [] + ([y] + rest) == [y] + rest;
    TidyReplace([], x, y, rest);
  }

  lemma GluedNormal(subdomain: string, first: string)
    requires ValidLabel(subdomain)
    ensures Normal(subdomain + first)
  {
    assert (subdomain + first)[0] == subdomain[0] && LabelChar(subdomain[0]);
    assert "."[0] == '.' && ".."[0] == '.';
  }

  lemma TextPasted(site: Site, subdomain: string, path: string)
    requires ValidSite(site) && Tidy(Split(Pasted(subdomain, path)))
    ensures Tidy(Split(RequestText(site, subdomain, path)[1..]))
  {
    var tail := Tail(subdomain, path);
    assert Tidy(Split(site.uri[1..] + tail)) by {
      TwoNames();
      DirsTidy(site.uri[1..], "media", "file", Pasted(subdomain, path));
    }
    DropFirst(site.uri, tail);
  }

  lemma DropFirst(a: string, b: string)
    requires a != ""
    ensures (a + b)[1..] == a[1..] + b
  {}

  lemma TwoNames()
    ensures Normal("media") && Normal("file") && Free("media", '/') && Free("file", '/')
    ensures Free("media", '%') && Free("file", '%')
  {
    assert "media"[0] == 'm' && "file"[0] == 'f' && "."[0] == '.' && ".."[0] == '.';
  }

  lemma DirsTidy(dirs: string, a: string, b: string, rest: string)
    requires EndsInSlash(dirs) && Tidy(Split(dirs)) && Tidy(Split(rest))
    requires Normal(a) && Normal(b) && Free(a, '/') && Free(b, '/')
    ensures Tidy(Split(dirs + (a + "/" + (b + "/" + rest))))
  {
    TidyDirs(dirs);
    SplitDirs(dirs, a + "/" + (b + "/" + rest));
    SplitTwo(a, b, rest);
    Assoc([a], [b], Split(rest));
    JoinSplit(rest);
    TidyThree(Dirs(dirs), [a] + [b], Split(rest));
  }

  /** When the text is served as it is but for its %25s, so is what follows the label. */
  lemma UnescapedText(site: Site, subdomain: string, path: string)
    requires ValidSite(site)
    ensures Unescaped(RequestText(site, subdomain, path))
         == site.uri + ("media" + "/" + ("file" + "/" + Unescaped(Pasted(subdomain, path))))
  {
    TwoNames();
    UnescapedPlain(site.uri, Tail(subdomain, path));
    UnescapedTwo("media", "file", Pasted(subdomain, path));
  }

  lemma UnescapedTwo(a: string, b: string, rest: string)
    requires Free(a, '/') && Free(b, '/') && Free(a, '%') && Free(b, '%')
    ensures Unescaped(a + "/" + (b + "/" + rest)) == a + "/" + (b + "/" + Unescaped(rest))
  {
    UnescapedSlash(a, b + "/" + rest);
    UnescapedSlash(b, rest);
    UnescapedPlain(a, "");
    UnescapedPlain(b, "");
    assert a + "" == a && b + "" == b;
  }

  /** What the router makes of a text that ends in q: q's first segment and the rest. */
  lemma RoutedPasted(uri: string, q: string, subdomain: string, rest: string)
    requires uri != "" && uri[|uri| - 1] == '/' && rest != ""
    requires RouteOf(Split(Relative(uri, uri + ("media" + "/" + ("file" + "/" + q))))) == ToMedia(subdomain, rest)
    ensures q == subdomain + "/" + rest
  {
    TwoNames();
    RoutedSegments(uri, uri + ("media" + "/" + ("file" + "/" + q)), subdomain, rest);
    BaseSegments(uri, "media", "file", q);
    JoinSplit(q);
    HeadAndRest(["", "media", "file"], Split(q));
  }

  lemma BaseSegments(uri: string, a: string, b: string, q: string)
    requires uri != "" && uri[|uri| - 1] == '/' && Free(a, '/') && Free(b, '/')
    ensures FromBase(uri, uri + (a + "/" + (b + "/" + q))) == ["", a, b] + Split(q)
  {
    var tail := a + "/" + (b + "/" + q);
    FromSlash(uri, tail);
    SplitTwo(a, b, q);
    Assoc([""], [a], [b] + Split(q));
    Assoc([""] + [a], [b], Split(q));
  }

  lemma FromSlash(uri: string, tail: string)
    requires uri != "" && uri[|uri| - 1] == '/' && tail != ""
    ensures FromBase(uri, uri + tail) == [""] + Split(tail)
  {
    RelativeTail(uri, tail);
    SplitCons("", tail);
  }

  lemma HeadAndRest(three: seq<string>, segs: seq<string>)
    requires |three| == 3 && |three + segs| > 4
    ensures Join(segs) == (three + segs)[3] + "/" + Join((three + segs)[4..])
  {
    assert (three + segs)[4..] == segs[1..];
  }

  /** What the router hands on cannot be short of the path that was pasted in by
      just a blur. */
  lemma NotShortOfBlur(subdomain: string, path: string, rest: string, n: nat)
    requires ValidLabel(subdomain) && Inserted(rest, path, n)
    ensures Unescaped(Pasted(subdomain, path)) != subdomain + "/" + rest
  {
    UnescapedNum(Pasted(subdomain, path), ',');
    NumAppend(subdomain + Separator(path), path, ',');
    NumAppend(subdomain, Separator(path), ',');
    NumAppend(subdomain + "/", rest, ',');
    NumAppend(subdomain, "/", ',');
    InsertedNum(rest, path, n, ',');
    BlurOpNum(n);
  }

  lemma SameAfter(a: string, x: string, y: string)
    requires a + x == a + y
    ensures x == y
  {
    assert x == (a + x)[|a|..] && y == (a + y)[|a|..];
  }

  /** If the router hands on what a blur would turn into the path that was pasted in,
      that blur changes nothing. */
  lemma BlurNeverMakesUp(site: Site, subdomain: string, path: string, rest: string, n: nat)
    requires ValidSite(site) && ValidLabel(subdomain)
    requires Received(RequestText(site, subdomain, path)).Some?
    requires RouteOf(Split(Relative(site.uri, Received(RequestText(site, subdomain, path)).value)))
          == ToMedia(subdomain, rest)
    requires AddBlur(rest, n) == path
    ensures rest == path
  {
    if rest != path {
      InsertedByBlur(rest, n);
      InsertedText(site, subdomain, path, rest, n);
      UnescapedText(site, subdomain, path);
      InsertedRest(rest, path, n);
      RoutedPasted(site.uri, Unescaped(Pasted(subdomain, path)), subdomain, rest);
      NotShortOfBlur(subdomain, path, rest, n);
    }
  }

  lemma InsertedRest(rest: string, path: string, n: nat)
    requires Inserted(rest, path, n)
    ensures rest != ""
  {
    var pre, ops, end :| PlainFit(rest, pre, ops, end) && path == pre + (ops + BlurOp(n)) + end;
  }

  /** Then nothing was lost on the way: the text was served as it was but for its %25s. */
  lemma InsertedText(site: Site, subdomain: string, path: string, rest: string, n: nat)
    requires ValidSite(site) && ValidLabel(subdomain) && Inserted(rest, path, n)
    requires Received(RequestText(site, subdomain, path)).Some?
    requires RouteOf(Split(Relative(site.uri, Received(RequestText(site, subdomain, path)).value)))
          == ToMedia(subdomain, rest)
    ensures Received(RequestText(site, subdomain, path)).value == Unescaped(RequestText(site, subdomain, path))
  {
    var text := RequestText(site, subdomain, path);
    var d := Received(text).value;
    InsertedRest(rest, path, n);
    InsertedPercents(site, subdomain, path, rest, n);
    ReceivedTidy(text);
    RoutedRest(site.uri, d, subdomain, rest);
    InsertedTidy(rest, path, n);
    PastedTidy(subdomain, path);
    TextPasted(site, subdomain, path);
    InsertedFree(site, subdomain, path, rest, n, d, '?');
    InsertedFree(site, subdomain, path, rest, n, d, '#');
    ReceivedPercents(text);
    assert PathPart(text) == text;
    assert text == "/" + text[1..];
    CleanIff(text[1..]);
  }

  lemma InsertedPercents(site: Site, subdomain: string, path: string, rest: string, n: nat)
    requires ValidSite(site) && ValidLabel(subdomain) && Inserted(rest, path, n)
    requires Received(RequestText(site, subdomain, path)).Some?
    requires RouteOf(Split(Relative(site.uri, Received(RequestText(site, subdomain, path)).value)))
          == ToMedia(subdomain, rest)
    ensures Num(Received(RequestText(site, subdomain, path)).value, '%') == Num(RequestText(site, subdomain, path), '%')
  {
    var text := RequestText(site, subdomain, path);
    InsertedRest(rest, path, n);
    ReceivedPercents(text);
    RoutedNum(site.uri, Received(text).value, subdomain, rest, '%');
    InsertedNum(rest, path, n, '%');
    BlurOpNum(n);
    TextPercents(site, subdomain, path);
  }

  lemma TextPercents(site: Site, subdomain: string, path: string)
    requires ValidSite(site) && ValidLabel(subdomain)
    ensures Num(RequestText(site, subdomain, path), '%') == Num(path, '%')
  {
    LabelPlain(subdomain);
    var names := "media" + "/" + ("file" + "/");
    var before := site.uri + (names + (subdomain + Separator(path)));
    assert RequestText(site, subdomain, path) == before + path;
    TwoNames();
    FreeJoin("media" + "/", "file" + "/", '%');
    FreeJoin(names, subdomain + Separator(path), '%');
    FreeJoin(site.uri, names + (subdomain + Separator(path)), '%');
    NumFree(before, '%');
    NumAppend(before, path, '%');
  }

  lemma InsertedFree(site: Site, subdomain: string, path: string, rest: string, n: nat, d: string, c: char)
    requires ValidSite(site) && ValidLabel(subdomain) && Inserted(rest, path, n) && (c == '?' || c == '#') && Free(d, c)
    requires RouteOf(Split(Relative(site.uri, d))) == ToMedia(subdomain, rest)
    ensures Free(RequestText(site, subdomain, path), c)
  {
    InsertedRest(rest, path, n);
    NumFree(d, c);
    RoutedNum(site.uri, d, subdomain, rest, c);
    InsertedNum(rest, path, n, c);
    BlurOpNum(n);
    NumFree(BlurOp(n), c);
    NumFree(path, c);
    TextFree(site, subdomain, path, c);
  }

  // ----- the round trip -----

  /** The path, from after its first slash, is one that a blur would change. */
  ghost predicate Blurrable(path: string) {
    exists pre, ops, rest :: PlainFit(path, pre, ops, rest)
  }

  /** Exactly which CDN URLs the proxy fetches back as they were: those on a wixmp
      host with a plain label, whose path is a slash and then a pasteable one, and
      whose token demands no blur or whose path has no place for one. */
  lemma RoundTripIff(site: Site, u: CdnUrl, filename: string, garbled: string, blur: string -> int)
    requires ValidSite(site)
    ensures Fetched(site, u, filename, garbled, blur) == Some(u)
            <==> RoundTrips(u) && (blur(u.token) <= 0 || !Blurrable(u.path[1..]))
  {
    if RoundTrips(u) {
      PasteableFetched(site, u, filename, garbled, blur);
      PathAfter(u, blur(u.token));
    } else if Fetched(site, u, filename, garbled, blur) == Some(u) {
      FetchedPasteable(site, u, filename, garbled, blur);
    }
  }

  lemma PathAfter(u: CdnUrl, n: int)
    requires "/" <= u.path
    ensures var p := u.path[1..];
            u.(path := "/" + if n > 0 then AddBlur(p, n) else p) == u <==> n <= 0 || !Blurrable(p)
  {
    var p := u.path[1..];
    assert u.path == "/" + p;
    if n > 0 {
      BlurIff(p, n);
      if "/" + AddBlur(p, n) == "/" + p { SameAfter("/", AddBlur(p, n), p); }
    }
  }

  /** If what is fetched is the URL that was given, its path was pasteable. */
  lemma FetchedPasteable(site: Site, u: CdnUrl, filename: string, garbled: string, blur: string -> int)
    requires ValidSite(site) && Fetched(site, u, filename, garbled, blur) == Some(u)
    ensures RoundTrips(u)
  {
    BuiltHost(site, u, filename, garbled, blur);
    var m := Media(LabelOf(u.host), u.path[1..], u.token);
    RequestIs(site, m);
    var path := Received(RequestText(site, m.subdomain, m.path)).value;
    var route := RouteOf(Split(Relative(site.uri, path)));
    HostLabel(route.subdomain);
    if blur(u.token) > 0 {
      SameAfter("/", AddBlur(route.path, blur(u.token)), m.path);
      BlurNeverMakesUp(site, m.subdomain, m.path, route.path, blur(u.token));
    }
    RoutedPasteable(site, m.subdomain, m.path);
  }
}
