/** The in-memory media cache of app/cache.go: score-based aging, in closed form
    over any history of reads, writes and aging rounds. */
module MemCache {
  import opened Common

  /** A SHA-1 sum; which URL it came from is not modelled. */
  type Key = Bytes

  datatype File = File(score: int, content: Bytes)

  datatype Event = Get(key: Key) | Put(key: Key, body: Bytes) | Age

  function AfterGet(m: map<Key, File>, k: Key): map<Key, File> {
    if k in m && m[k].content != [] then m[k := m[k].(score := m[k].score + 2)] else m
  }

  function Found(m: map<Key, File>, k: Key): Bytes {
    if k in m then m[k].content else []
  }

  function AfterPut(m: map<Key, File>, k: Key, body: Bytes): map<Key, File> {
    if body == [] then m else m[k := File(0, body)]
  }

  function AfterAge(m: map<Key, File>): map<Key, File> {
    map k | k in m && m[k].score > 0 :: m[k].(score := m[k].score - 1)
  }

  /** The cache after the first n events. */
  function After(es: seq<Event>, n: nat): map<Key, File>
    requires n <= |es|
  {
    if n == 0 then map[]
    else
      var m := After(es, n - 1);
      match es[n - 1]
      case Get(k) => AfterGet(m, k)
      case Put(k, body) => AfterPut(m, k, body)
      case Age => AfterAge(m)
  }

  // ----- told from the history alone -----

  predicate Fills(e: Event, k: Key) { e.Put? && e.key == k && e.body != [] }

  /** Index of the last non-empty put of k among the first n events, or -1. */
  function LastPut(es: seq<Event>, k: Key, n: nat): (p: int)
    requires n <= |es|
    ensures -1 <= p < n && (p >= 0 ==> Fills(es[p], k))
    ensures forall i :: p < i < n ==> !Fills(es[i], k)
  {
    if n == 0 then -1 else if Fills(es[n - 1], k) then n - 1 else LastPut(es, k, n - 1)
  }

  /** Reads of k, and aging rounds, from event a up to event b. */
  function Reads(es: seq<Event>, k: Key, a: nat, b: nat): nat
    requires b <= |es|
  {
    if b <= a then 0 else Reads(es, k, a, b - 1) + if es[b - 1] == Get(k) then 1 else 0
  }

  function Rounds(es: seq<Event>, a: nat, b: nat): nat
    requires b <= |es|
  {
    if b <= a then 0 else Rounds(es, a, b - 1) + if es[b - 1] == Age then 1 else 0
  }

  function Score(es: seq<Event>, k: Key, a: nat, b: nat): int
    requires b <= |es|
  {
    2 * Reads(es, k, a, b) - Rounds(es, a, b)
  }

  /** Every round since event a found points left. */
  ghost predicate PaidUp(es: seq<Event>, k: Key, a: nat, n: nat)
    requires n <= |es|
  {
    forall q :: a <= q < n && es[q] == Age ==> Score(es, k, a, q) > 0
  }

  lemma PaidUpStep(es: seq<Event>, k: Key, a: nat, n: nat)
    requires a < n <= |es|
    ensures PaidUp(es, k, a, n) <==> PaidUp(es, k, a, n - 1) && (es[n - 1] == Age ==> Score(es, k, a, n - 1) > 0)
    ensures Score(es, k, a, n)
         == Score(es, k, a, n - 1) + (if es[n - 1] == Get(k) then 2 else if es[n - 1] == Age then -1 else 0)
  {}

  /** k is held exactly if it was put and every aging round since its last
      non-empty put found its score positive; its score is then twice its reads
      less the rounds since that put, never negative; and its body is that put's. */
  ghost predicate InForm(es: seq<Event>, k: Key, n: nat, m: map<Key, File>)
    requires n <= |es|
  {
    var p := LastPut(es, k, n);
    && (k in m <==> p >= 0 && PaidUp(es, k, p + 1, n))
    && (k in m ==> m[k] == File(Score(es, k, p + 1, n), es[p].body) && m[k].score >= 0)
  }

  lemma PutInForm(es: seq<Event>, k: Key, n: nat, m: map<Key, File>)
    requires 0 < n <= |es| && Fills(es[n - 1], k) && k in m && m[k] == File(0, es[n - 1].body)
    ensures InForm(es, k, n, m)
  {
    assert LastPut(es, k, n) == n - 1 && Score(es, k, n, n) == 0;
  }

  lemma StepInForm(es: seq<Event>, k: Key, n: nat, m: map<Key, File>, t: map<Key, File>)
    requires 0 < n <= |es| && !Fills(es[n - 1], k) && InForm(es, k, n - 1, m)
    requires k in t <==> k in m && (es[n - 1] == Age ==> m[k].score > 0)
    requires k in t ==> t[k] == m[k].(score := m[k].score
                                     + (if es[n - 1] == Get(k) then 2 else if es[n - 1] == Age then -1 else 0))
    ensures InForm(es, k, n, t)
  {
    var p := LastPut(es, k, n - 1);
    if p >= 0 { PaidUpStep(es, k, p + 1, n); }
  }

  /** After any history the cache is what the history alone says. */
  lemma {:induction false} ClosedForm(es: seq<Event>, k: Key, n: nat)
    requires n <= |es|
    ensures InForm(es, k, n, After(es, n))
  {
    if n > 0 {
      ClosedForm(es, k, n - 1);
      if Fills(es[n - 1], k) {
        PutInForm(es, k, n, After(es, n));
      } else {
        StepInForm(es, k, n, After(es, n - 1), After(es, n));
      }
    }
  }

  /** What a read returns: the body of the last non-empty put while k is held, else nothing. */
  lemma ReadReturnsLastPut(es: seq<Event>, k: Key, n: nat)
    requires n <= |es|
    ensures var p := LastPut(es, k, n);
            Found(After(es, n), k) == if p >= 0 && PaidUp(es, k, p + 1, n) then es[p].body else []
    ensures Found(After(es, n), k) != [] <==> k in After(es, n)
  {
    ClosedForm(es, k, n);
  }

  function AgeMany(m: map<Key, File>, rounds: nat): map<Key, File> {
    if rounds == 0 then m else AfterAge(AgeMany(m, rounds - 1))
  }

  /** Left alone at score s, an entry survives exactly s rounds and is gone after one more. */
  lemma {:induction false} LeftAlone(m: map<Key, File>, k: Key, rounds: nat)
    requires k in m && m[k].score >= 0
    ensures k in AgeMany(m, rounds) <==> rounds <= m[k].score
    ensures rounds <= m[k].score ==> AgeMany(m, rounds)[k] == m[k].(score := m[k].score - rounds)
  {
    if rounds > 0 { LeftAlone(m, k, rounds - 1); }
  }

  // ----- the cache as it is -----

  class FileCell {
    var score: int
    const content: Bytes
    ghost const owner: Key // whose file it is, so no two keys share one

    constructor (ghost owner: Key, content: Bytes)
      ensures score == 0 && this.content == content && this.owner == owner
    {
      score, this.content, this.owner := 0, content, owner;
    }

    ghost function View(): File
      reads this
    {
      File(score, content)
    }
  }

  ghost predicate Backed(fs: map<Key, FileCell>, files: map<Key, File>, cells: set<FileCell>)
    reads cells
  {
    && fs.Keys == files.Keys
    && forall k :: k in fs ==> fs[k] in cells && fs[k].owner == k && fs[k].View() == files[k]
  }

  lemma BackedWithout(fs: map<Key, FileCell>, files: map<Key, File>, cells: set<FileCell>, k: Key)
    requires Backed(fs, files, cells)
    ensures Backed(fs - {k}, files - {k}, cells)
  {}

  /** Files already visited by the round, aged; the others as they were. */
  ghost function Aged(before: map<Key, File>, todo: set<Key>): map<Key, File> {
    map k | k in before && (k in todo || before[k].score > 0) ::
      if k in todo then before[k] else before[k].(score := before[k].score - 1)
  }

  lemma AgedStep(before: map<Key, File>, todo: set<Key>, k: Key)
    requires k in todo && k in before
    ensures k in Aged(before, todo) && Aged(before, todo)[k] == before[k]
    ensures Aged(before, todo - {k})
         == if before[k].score <= 0 then Aged(before, todo) - {k}
            else Aged(before, todo)[k := before[k].(score := before[k].score - 1)]
  {}

  lemma AgedEnds(before: map<Key, File>)
    ensures Aged(before, before.Keys) == before && Aged(before, {}) == AfterAge(before)
  {}

  class Cache {
    var tempFS: map<Key, FileCell>
    ghost var files: map<Key, File>
    ghost var cells: set<FileCell>

    ghost predicate Valid()
      reads this, cells
    {
      Backed(tempFS, files, cells)
    }

    constructor ()
      ensures Valid() && files == map[]
    {
      tempFS, files, cells := map[], map[], {};
    }

    /** The body under key, or empty; a hit earns it two points. */
    method MemGet(key: Key) returns (body: Bytes)
      requires Valid()
      modifies `files, cells
      ensures Valid() && files == AfterGet(old(files), key)
      ensures body == Found(old(files), key)
    {
      if key !in tempFS || tempFS[key].content == [] {
        return [];
      }
      var f := tempFS[key];
      SetScore(key, f, f.score + 2);
      return f.content;
    }

    method MemPut(key: Key, body: Bytes)
      requires Valid()
      modifies this
      ensures Valid() && fresh(cells - old(cells)) && files == AfterPut(old(files), key, body)
    {
      if |body| == 0 {
        return;
      }
      var f := new FileCell(key, body);
      tempFS := tempFS[key := f];
      files := files[key := f.View()];
      cells := cells + {f};
    }

    /** One round of aging. */
    method AgeMemCache()
      requires Valid()
      modifies `tempFS, `files, cells
      ensures Valid() && files == AfterAge(old(files))
    {
      var todo := tempFS.Keys;
      ghost var before := files;
      AgedEnds(before);
      while todo != {}
        invariant Valid() && todo <= tempFS.Keys && todo <= before.Keys
        invariant files == Aged(before, todo)
        decreases |todo|
      {
        var k :| k in todo;
        AgeNext(k, before, todo);
        todo := todo - {k};
      }
    }

    /** The round's step for one file: drop it if it is out of points, else take one. */
    method AgeOne(k: Key)
      requires Valid() && k in tempFS
      modifies `tempFS, `files, cells
      ensures Valid() && tempFS.Keys >= old(tempFS.Keys) - {k}
      ensures var f := old(files)[k];
              files == if f.score <= 0 then old(files) - {k} else old(files)[k := f.(score := f.score - 1)]
    {
      var f := tempFS[k];
      assert f.View() == files[k];
      if f.score <= 0 {
        BackedWithout(tempFS, files, cells, k);
        tempFS := tempFS - {k};
        files := files - {k};
      } else {
        SetScore(k, f, f.score - 1);
      }
    }

    /** ... which takes the round one file further. */
    method AgeNext(k: Key, ghost before: map<Key, File>, ghost todo: set<Key>)
      requires Valid() && k in todo && todo <= tempFS.Keys && todo <= before.Keys && files == Aged(before, todo)
      modifies `tempFS, `files, cells
      ensures Valid() && files == Aged(before, todo - {k}) && todo - {k} <= tempFS.Keys
    {
      AgedStep(before, todo, k);
      AgeOne(k);
    }

    /** Write a file's score in place. */
    method SetScore(ghost key: Key, f: FileCell, score: int)
      requires Valid() && key in tempFS && tempFS[key] == f
      modifies f, `files
      ensures Valid() && files == old(files)[key := old(files)[key].(score := score)]
    {
      f.score := score;
      files := files[key := f.View()];
    }
  }
}
