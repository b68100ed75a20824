/** Paths as segments: splitting and joining as app/router.go does, and the
    cleaning that net/http does to a path before the handler sees it. */
module Paths {
  import opened Common

  // ----- segments -----

  function IndexChar(s: string, c: char): (i: int)
    ensures -1 <= i < |s| && (i >= 0 ==> s[i] == c)
    ensures forall j :: 0 <= j < (if i >= 0 then i else |s|) ==> s[j] != c
  {
    if s == "" then -1 else if s[0] == c then 0
    else var i := IndexChar(s[1..], c); if i < 0 then -1 else i + 1
  }

  function Split(s: string): seq<string> {
    var i := IndexChar(s, '/');
    if i < 0 then [s] else [s[..i]] + Split(s[i + 1..])
  }

  function Join(segs: seq<string>): string {
    if segs == [] then "" else if |segs| == 1 then segs[0] else segs[0] + "/" + Join(segs[1..])
  }

  lemma CutAt(s: string, i: nat)
    requires i < |s|
    ensures s == s[..i] + [s[i]] + s[i + 1..]
  {}

  lemma {:induction false} JoinSplit(s: string)
    ensures |Split(s)| >= 1 && Join(Split(s)) == s
  {
    var i := IndexChar(s, '/');
    if i >= 0 {
      var rest := Split(s[i + 1..]);
      JoinSplit(s[i + 1..]);
      assert Split(s)[1..] == rest && Split(s)[0] == s[..i];
      CutAt(s, i);
    }
  }

  lemma SplitCons(a: string, b: string)
    requires Free(a, '/')
    ensures Split(a + "/" + b) == [a] + Split(b)
  {
    var s := a + "/" + b;
    assert s[|a|] == '/';
    assert s[..|a|] == a && s[|a| + 1..] == b;
  }

  lemma SplitAlone(a: string)
    requires Free(a, '/')
    ensures Split(a) == [a]
  {}

  lemma Recut(first: string, slash: string, rest: string, b: string)
    ensures first + slash + rest + slash + b == first + slash + (rest + slash + b)
  {}

  lemma {:induction false} SplitAppend(a: string, b: string)
    ensures Split(a + "/" + b) == Split(a) + Split(b)
  {
    var i := IndexChar(a, '/');
    if i < 0 {
      SplitCons(a, b);
    } else {
      var first, rest := a[..i], a[i + 1..];
      CutAt(a, i);
      SplitAppend(rest, b);
      SplitCons(first, rest);
      SplitCons(first, rest + "/" + b);
      Recut(first, [a[i]], rest, b);
      Assoc([first], Split(rest), Split(b));
    }
  }

  // ----- cleaning -----

  predicate Normal(seg: string) { seg != "" && seg != "." && seg != ".." }

  /** path.Clean of a rooted path, over its segments: empty ones and . go, .. takes
      the one before it along, if there is one. */
  function Kept(done: seq<string>, segs: seq<string>): seq<string>
    decreases |segs|
  {
    if segs == [] then done
    else if segs[0] == ".." then Kept(if done == [] then [] else done[..|done| - 1], segs[1..])
    else if Normal(segs[0]) then Kept(done + [segs[0]], segs[1..])
    else Kept(done, segs[1..])
  }

  /** The rooted path of some segments. A trailing slash is put back. */
  function Rebuilt(segs: seq<string>, slash: bool): string {
    "/" + Join(segs) + (if slash && segs != [] then "/" else "")
  }

  predicate EndsInSlash(s: string) { s == "" || s[|s| - 1] == '/' }

  /** path.Clean of the path that is a slash and then s, with a trailing slash put back. */
  function CleanAfterSlash(s: string): string { Rebuilt(Kept([], Split(s)), EndsInSlash(s)) }

  /** What net/http's ServeMux makes of a request's path; one that this changes is
      redirected to what it makes of it. */
  function CleanPath(p: string): string {
    CleanAfterSlash(if p != "" && p[0] == '/' then p[1..] else p)
  }

  /** Segments that cleaning leaves alone. Only the last may be empty. */
  predicate Tidy(segs: seq<string>) {
    forall i :: 0 <= i < |segs| ==> Normal(segs[i]) || (i == |segs| - 1 && segs[i] == "")
  }

  predicate AllNormal(segs: seq<string>) { forall i :: 0 <= i < |segs| ==> Normal(segs[i]) }

  function Weight(segs: seq<string>): nat {
    if segs == [] then 0 else |segs[0]| + 1 + Weight(segs[1..])
  }

  lemma {:induction false} JoinWeight(segs: seq<string>)
    requires segs != []
    ensures |Join(segs)| + 1 == Weight(segs)
  {
    if |segs| > 1 { JoinWeight(segs[1..]); }
  }

  lemma {:induction false} WeightAppend(a: seq<string>, b: seq<string>)
    ensures Weight(a + b) == Weight(a) + Weight(b)
  {
    if a == [] {
      assert a + b == b;
    } else {
      WeightAppend(a[1..], b);
      assert (a + b)[1..] == a[1..] + b;
    }
  }

  lemma {:induction false} KeptAppend(done: seq<string>, a: seq<string>, b: seq<string>)
    ensures Kept(done, a + b) == Kept(Kept(done, a), b)
    decreases |a|
  {
    if a == [] {
      assert a + b == b;
    } else {
      assert (a + b)[1..] == a[1..] + b && (a + b)[0] == a[0];
      if a[0] == ".." {
        KeptAppend(if done == [] then [] else done[..|done| - 1], a[1..], b);
      } else if Normal(a[0]) {
        KeptAppend(done + [a[0]], a[1..], b);
      } else {
        KeptAppend(done, a[1..], b);
      }
    }
  }

  /** Cleaning keeps all of what is normal, and anything else costs length. */
  lemma {:induction false} KeptWeight(done: seq<string>, segs: seq<string>)
    ensures AllNormal(segs) ==> Kept(done, segs) == done + segs
    ensures !AllNormal(segs) ==> Weight(Kept(done, segs)) < Weight(done) + Weight(segs)
    decreases |segs|, 0
  {
    if segs == [] {
      assert done + segs == done;
    } else {
      var first, rest := segs[0], segs[1..];
      assert segs == [first] + rest;
      if first == ".." {
        var popped := if done == [] then [] else done[..|done| - 1];
        if done != [] { WeightAppend(popped, [done[|done| - 1]]); assert done == popped + [done[|done| - 1]]; }
        KeptAtMost(popped, rest);
      } else if Normal(first) {
        KeptWeight(done + [first], rest);
        WeightAppend(done, [first]);
        Assoc(done, [first], rest);
      } else {
        KeptAtMost(done, rest);
      }
    }
  }

  lemma KeptAtMost(done: seq<string>, segs: seq<string>)
    ensures Weight(Kept(done, segs)) <= Weight(done) + Weight(segs)
    decreases |segs|, 1
  {
    KeptWeight(done, segs);
    WeightAppend(done, segs);
  }

  lemma {:induction false} JoinTrailing(segs: seq<string>)
    requires segs != []
    ensures Join(segs + [""]) == Join(segs) + "/"
  {
    assert (segs + [""])[1..] == segs[1..] + [""];
    if |segs| > 1 { JoinTrailing(segs[1..]); }
  }

  lemma RebuiltLength(segs: seq<string>, slash: bool)
    ensures |Rebuilt(segs, slash)| == if segs == [] then 1 else Weight(segs) + (if slash then 1 else 0)
  {
    if segs != [] { JoinWeight(segs); }
  }

  lemma RebuiltTrailing(front: seq<string>)
    ensures Rebuilt(front, true) == "/" + Join(front + [""])
  {
    if front == [] {
      assert front + [""] == [""];
    } else {
      JoinTrailing(front);
      Assoc("/", Join(front), "/");
    }
  }

  /** Where the trailing slash puts an empty last segment, what comes before it decides. */
  lemma CleanTrailing(front: seq<string>)
    ensures var p, q := Rebuilt(Kept([], front + [""]), true), "/" + Join(front + [""]);
            if AllNormal(front) then p == q else |p| < |q|
  {
    KeptAppend([], front, [""]);
    JoinWeight(front + [""]);
    WeightAppend(front, [""]);
    KeptFromNothing(front);
    RebuiltLength(Kept([], front), true);
    RebuiltTrailing(front);
  }

  lemma KeptFromNothing(segs: seq<string>)
    ensures AllNormal(segs) ==> Kept([], segs) == segs
    ensures !AllNormal(segs) ==> Weight(Kept([], segs)) < Weight(segs)
  {
    KeptWeight([], segs);
    assert [] + segs == segs;
  }

  lemma CleanOpen(segs: seq<string>)
    requires segs != [] && segs[|segs| - 1] != ""
    ensures var p, q := Rebuilt(Kept([], segs), false), "/" + Join(segs);
            if AllNormal(segs) then p == q else |p| < |q|
  {
    JoinWeight(segs);
    JoinEmpty(segs);
    KeptFromNothing(segs);
    RebuiltLength(Kept([], segs), false);
    assert "/" + Join(segs) + "" == "/" + Join(segs);
  }

  lemma JoinEmpty(segs: seq<string>)
    requires segs != [] && segs[|segs| - 1] != ""
    ensures Join(segs) != ""
  {}

  lemma TidyFront(segs: seq<string>)
    requires segs != []
    ensures segs[|segs| - 1] == "" ==> (Tidy(segs) <==> AllNormal(segs[..|segs| - 1]))
    ensures segs[|segs| - 1] != "" ==> (Tidy(segs) <==> AllNormal(segs))
  {
    var n := |segs| - 1;
    if Tidy(segs) {
      forall i | 0 <= i < n ensures Normal(segs[..n][i]) { assert segs[..n][i] == segs[i]; }
    }
    if AllNormal(segs[..n]) {
      forall i | 0 <= i < n ensures Normal(segs[i]) { assert segs[..n][i] == segs[i]; }
    }
  }

  lemma LastOfTwo<T>(a: seq<T>, b: seq<T>)
    requires b != []
    ensures (a + b)[|a + b| - 1] == b[|b| - 1]
  {}

  lemma SlashThen(first: string, rest: string)
    ensures EndsInSlash(first + "/" + rest) <==> EndsInSlash(rest)
  {
    if rest != "" { LastOfTwo(first + "/", rest); }
  }

  lemma {:induction false} LastEmpty(s: string)
    ensures |Split(s)| > 0 && (Split(s)[|Split(s)| - 1] == "" <==> EndsInSlash(s))
  {
    var i := IndexChar(s, '/');
    if i >= 0 {
      var first, rest := s[..i], s[i + 1..];
      LastEmpty(rest);
      CutAt(s, i);
      LastOfTwo([first], Split(rest));
      SlashThen(first, rest);
    }
  }

  /** A path is left alone exactly if it has no ., no .. and no empty segment but
      perhaps the last; any other gets shorter. */
  lemma CleanIff(s: string)
    ensures if Tidy(Split(s)) then CleanAfterSlash(s) == "/" + s else |CleanAfterSlash(s)| < |"/" + s|
  {
    var segs := Split(s);
    assert |segs| > 0 && CleanAfterSlash(s) == Rebuilt(Kept([], segs), segs[|segs| - 1] == "") by { LastEmpty(s); }
    assert Join(segs) == s by { JoinSplit(s); }
    CleanSegments(segs);
  }

  lemma CleanSegments(segs: seq<string>)
    requires segs != []
    ensures var p, q := Rebuilt(Kept([], segs), segs[|segs| - 1] == ""), "/" + Join(segs);
            if Tidy(segs) then p == q else |p| < |q|
  {
    var n := |segs| - 1;
    TidyFront(segs);
    if segs[n] == "" {
      assert segs == segs[..n] + [segs[n]];
      CleanTrailing(segs[..n]);
    } else {
      CleanOpen(segs);
    }
  }

  /** The segments before a trailing slash. */
  function Dirs(s: string): seq<string>
    requires EndsInSlash(s)
  {
    if s == "" then [] else Split(s[..|s| - 1])
  }

  lemma SplitDirs(a: string, b: string)
    requires EndsInSlash(a)
    ensures Split(a + b) == Dirs(a) + Split(b)
  {
    if a == "" {
      assert a + b == b && [] + Split(b) == Split(b);
    } else {
      var n := |a| - 1;
      assert a == a[..n] + "/";
      SplitAppend(a[..n], b);
    }
  }

  lemma TidyAfter(a: seq<string>, b: seq<string>)
    requires AllNormal(a) && b != []
    ensures Tidy(a + b) <==> Tidy(b)
  {
    if Tidy(a + b) {
      forall i | 0 <= i < |b| ensures Normal(b[i]) || (i == |b| - 1 && b[i] == "") {
        assert (a + b)[|a| + i] == b[i];
      }
    }
  }

  lemma TidyDirs(a: string)
    requires EndsInSlash(a) && Tidy(Split(a))
    ensures AllNormal(Dirs(a))
  {
    SplitDirs(a, "");
    assert a + "" == a && Split("") == [""];
    TidyFront(Split(a));
    assert Split(a)[..|Split(a)| - 1] == Dirs(a);
  }

  // ----- one redirect is enough -----

  predicate NoSlashes(segs: seq<string>) { forall i :: 0 <= i < |segs| ==> Free(segs[i], '/') }

  lemma {:induction false} SplitNoSlashes(s: string)
    ensures NoSlashes(Split(s))
  {
    var i := IndexChar(s, '/');
    if i >= 0 {
      var first, rest := s[..i], s[i + 1..];
      SplitNoSlashes(rest);
      assert Free(first, '/');
      NoSlashesCons(first, Split(rest));
    }
  }

  lemma NoSlashesCons(first: string, rest: seq<string>)
    requires Free(first, '/') && NoSlashes(rest)
    ensures NoSlashes([first] + rest)
  {}

  lemma {:induction false} KeptNormal(done: seq<string>, segs: seq<string>)
    requires AllNormal(done) && NoSlashes(done) && NoSlashes(segs)
    ensures AllNormal(Kept(done, segs)) && NoSlashes(Kept(done, segs))
    decreases |segs|
  {
    if segs != [] {
      var rest := segs[1..];
      if segs[0] == ".." {
        KeptNormal(if done == [] then [] else done[..|done| - 1], rest);
      } else if Normal(segs[0]) {
        KeptNormal(done + [segs[0]], rest);
      } else {
        KeptNormal(done, rest);
      }
    }
  }

  lemma {:induction false} SplitJoin(segs: seq<string>)
    requires segs != [] && NoSlashes(segs)
    ensures Split(Join(segs)) == segs
  {
    if |segs| == 1 {
      SplitAlone(segs[0]);
    } else {
      SplitJoin(segs[1..]);
      SplitCons(segs[0], Join(segs[1..]));
    }
  }

  /** What follows the first slash of a cleaned path. */
  lemma RebuiltTidy(segs: seq<string>, slash: bool) returns (body: string)
    requires AllNormal(segs) && NoSlashes(segs)
    ensures Rebuilt(segs, slash) == "/" + body && Tidy(Split(body))
  {
    var end := if slash && segs != [] then "/" else "";
    body := Join(segs) + end;
    Assoc("/", Join(segs), end);
    if segs == [] {
      SplitAlone("");
    } else if slash {
      TrailingTidy(segs);
    } else {
      SplitJoin(segs);
      NothingAfter(Join(segs));
    }
  }

  lemma NothingAfter(s: string)
    ensures s + "" == s
  {}

  lemma TrailingTidy(segs: seq<string>)
    requires AllNormal(segs) && NoSlashes(segs) && segs != []
    ensures Tidy(Split(Join(segs) + "/"))
  {
    SplitJoin(segs);
    SplitAlone("");
    SplitAppend(Join(segs), "");
    NothingAfter(Join(segs) + "/");
    TidyAfter(segs, [""]);
  }

  /** Cleaning leaves a slash and then tidy segments. */
  lemma CleanBody(p: string) returns (body: string)
    ensures CleanPath(p) == "/" + body && Tidy(Split(body))
  {
    var s := if p != "" && p[0] == '/' then p[1..] else p;
    SplitNoSlashes(s);
    KeptNormal([], Split(s));
    body := RebuiltTidy(Kept([], Split(s)), EndsInSlash(s));
  }

  /** Cleaning a cleaned path changes nothing, so the redirected request is served. */
  lemma CleanTwice(p: string)
    ensures CleanPath(CleanPath(p)) == CleanPath(p)
  {
    var body := CleanBody(p);
    CleanIff(body);
    assert ("/" + body)[1..] == body;
  }

  // ----- segments of a part of a path -----

  /** Cutting off the front of a path leaves its last segments, but for the first left. */
  lemma {:induction false} SuffixSegments(s: string, k: nat) returns (a: seq<string>)
    requires k <= |s|
    ensures Split(s) == a + Split(s[k..])[1..]
    decreases |s|
  {
    var i := IndexChar(s, '/');
    var t := s[k..];
    if i < 0 {
      SplitAlone(s);
      SplitAlone(t);
      a := [s];
      assert [t][1..] == [] && [s] + [] == [s];
    } else {
      var first, rest := s[..i], s[i + 1..];
      CutAt(s, i);
      SplitCons(first, rest);
      if i < k {
        a := SuffixSegments(rest, k - (i + 1));
        assert rest[k - (i + 1)..] == t;
        Assoc([first], a, Split(t)[1..]);
        a := [first] + a;
      } else {
        assert t == s[k..i] + "/" + rest;
        SplitCons(s[k..i], rest);
        a := [first];
        assert ([s[k..i]] + Split(rest))[1..] == Split(rest);
      }
    }
  }

  lemma TidyReplace(a: seq<string>, x: string, y: string, b: seq<string>)
    requires Tidy(a + ([x] + b)) && b != [] && Normal(y)
    ensures Tidy(a + ([y] + b))
  {
    var before, after := a + ([x] + b), a + ([y] + b);
    forall i | 0 <= i < |after| ensures Normal(after[i]) || (i == |after| - 1 && after[i] == "") {
      if i != |a| { assert after[i] == before[i]; }
    }
  }

  lemma TidySuffix(segs: seq<string>, n: nat)
    requires Tidy(segs) && n <= |segs|
    ensures Tidy(segs[n..])
  {
    forall i | 0 <= i < |segs[n..]| ensures Normal(segs[n..][i]) || (i == |segs[n..]| - 1 && segs[n..][i] == "") {
      assert segs[n..][i] == segs[n + i];
    }
  }
}
