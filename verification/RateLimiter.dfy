/** The limiter of app/ratelimit.go as it is: a map of bucket objects updated in
    place, proved to do to its table of buckets what RateLimit says. */
module RateLimiter {
  import opened RateLimit

  class BucketCell {
    var tokens: real
    var last: real
    ghost const owner: Client // whose bucket it is, so no two clients share one

    constructor (ghost owner: Client, tokens: real, last: real)
      ensures this.owner == owner && this.tokens == tokens && this.last == last
    {
      this.owner, this.tokens, this.last := owner, tokens, last;
    }

    ghost function View(): Bucket
      reads this
    {
      Bucket(tokens, last)
    }
  }

  /** Each client has a cell of its own, among `cells`, holding its bucket of the table. */
  ghost predicate Backed(bs: map<Client, BucketCell>, table: map<Client, Bucket>, cells: set<BucketCell>)
    reads cells
  {
    && bs.Keys == table.Keys
    && (forall x :: x in bs ==> bs[x] in cells && bs[x].owner == x && bs[x].View() == table[x])
  }

  lemma BackedWith(bs: map<Client, BucketCell>, table: map<Client, Bucket>, cells: set<BucketCell>,
                   x: Client, b: BucketCell)
    requires Backed(bs, table, cells) && b.owner == x
    ensures Backed(bs[x := b], table[x := b.View()], cells + {b})
  {}

  lemma BackedWithout(bs: map<Client, BucketCell>, table: map<Client, Bucket>, cells: set<BucketCell>,
                      gone: set<Client>)
    requires Backed(bs, table, cells)
    ensures Backed(bs - gone, table - gone, cells)
  {}

  /** What is left of the table once the clients outside todo have been looked at. */
  ghost function Left(table: map<Client, Bucket>, todo: set<Client>, now: real): map<Client, Bucket> {
    map x | x in table && (x in todo || !Idle(table[x], now)) :: table[x]
  }

  lemma LeftStep(table: map<Client, Bucket>, todo: set<Client>, x: Client, now: real)
    requires x in todo && x in table
    ensures x in Left(table, todo, now) && Left(table, todo, now)[x] == table[x]
    ensures Left(table, todo - {x}, now)
         == if Idle(table[x], now) then Left(table, todo, now) - {x} else Left(table, todo, now)
  {}

  lemma LeftEnds(table: map<Client, Bucket>, now: real)
    ensures Left(table, table.Keys, now) == table && Left(table, {}, now) == Pruned(table, now)
  {}

  lemma JustUsedStays(table: map<Client, Bucket>, x: Client, now: real)
    requires x in table && table[x].last == now
    ensures x in Pruned(table, now)
  {}

  class Limiter {
    const c: Config
    var buckets: map<Client, BucketCell>
    var inserts: nat

    /** The table the cells stand for, and the cells in use. */
    ghost var table: map<Client, Bucket>
    ghost var cells: set<BucketCell>

    ghost predicate Valid()
      reads this, cells
    {
      Backed(buckets, table, cells)
    }

    ghost function Model(): Table
      reads this
    {
      Table(table, inserts)
    }

    constructor (perMinute: nat, burst: nat)
      requires perMinute > 0 && burst > 0
      ensures Valid() && Model() == EMPTY && c == NewConfig(perMinute, burst)
      ensures c.perSecond * 60.0 == perMinute as real && c.burst == burst as real
    {
      c := NewConfig(perMinute, burst);
      buckets, inserts, table, cells := map[], 0, map[], {};
    }

    /** Whether client may make a request now, spending one token if so. */
    method Allow(client: Client, now: real) returns (ok: bool)
      requires Valid()
      modifies this, cells
      ensures Valid() && Model() == AfterAllow(c, old(Model()), client, now)
      ensures ok == Allows(c, old(Model()), client, now)
    {
      var b: BucketCell;
      if client !in buckets {
        b := Insert(client, now);
      } else {
        b := buckets[client];
        Update(client, b, Min(c.burst, b.tokens + Gain(c, b.last, now)), now);
      }
      assert Model() == AfterFind(c, old(Model()), client, now);
      if b.tokens < 1.0 {
        assert table[client := b.View()] == table;
        return false;
      }
      Update(client, b, b.tokens - 1.0, b.last);
      return true;
    }

    /** Write a client's bucket in place. */
    method Update(ghost client: Client, b: BucketCell, tokens: real, last: real)
      requires Valid() && client in buckets && buckets[client] == b
      modifies b, `table
      ensures Valid() && b.View() == Bucket(tokens, last) && table == old(table)[client := Bucket(tokens, last)]
    {
      b.tokens, b.last := tokens, last;
      table := table[client := Bucket(tokens, last)];
    }

    /** A new client's full bucket. */
    method Store(client: Client, now: real) returns (b: BucketCell)
      requires Valid() && client !in buckets
      modifies `buckets, `table, `cells
      ensures Valid() && fresh(b) && cells == old(cells) + {b}
      ensures table == old(table)[client := Bucket(c.burst, now)]
      ensures client in buckets && buckets[client] == b && b.View() == Bucket(c.burst, now)
    {
      b := new BucketCell(client, c.burst, now);
      BackedWith(buckets, table, cells, client, b);
      buckets := buckets[client := b];
      table := table[client := b.View()];
      cells := cells + {b};
    }

    /** ... and the prune its insertion may trigger. */
    method Insert(client: Client, now: real) returns (b: BucketCell)
      requires Valid() && client !in buckets
      modifies this
      ensures Valid() && fresh(b) && cells == old(cells) + {b}
      ensures Model() == AfterFind(c, old(Model()), client, now)
      ensures client in buckets && buckets[client] == b && b.View() == Bucket(c.burst, now)
    {
      b := Store(client, now);
      inserts := inserts + 1;
      if inserts % PRUNE_EVERY == 0 {
        JustUsedStays(table, client, now);
        PruneIdle(now);
      }
    }

    /** Drop buckets idle past the limit. */
    method PruneIdle(now: real)
      requires Valid()
      modifies `buckets, `table
      ensures Valid() && table == Pruned(old(table), now)
      ensures forall x :: x in buckets ==> x in old(buckets) && buckets[x] == old(buckets)[x]
    {
      var todo := buckets.Keys;
      ghost var before := table;
      LeftEnds(before, now);
      while todo != {}
        invariant Valid() && todo <= buckets.Keys && todo <= before.Keys
        invariant table == Left(before, todo, now)
        invariant forall x :: x in buckets ==> x in old(buckets) && buckets[x] == old(buckets)[x]
        decreases |todo|
      {
        var client :| client in todo;
        LeftStep(before, todo, client, now);
        todo := todo - {client};
        PruneOne(client, now);
      }
    }

    /** The loop's body. */
    method PruneOne(client: Client, now: real)
      requires Valid() && client in buckets
      modifies `buckets, `table
      ensures Valid() && table == old(if Idle(table[client], now) then table - {client} else table)
      ensures forall x :: x in buckets ==> x in old(buckets) && buckets[x] == old(buckets)[x]
    {
      assert buckets[client].View() == table[client];
      if now - buckets[client].last > BUCKET_IDLE {
        BackedWithout(buckets, table, cells, {client});
        buckets := buckets - {client};
        table := table - {client};
      }
    }
  }
}
