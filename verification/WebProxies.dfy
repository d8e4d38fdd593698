/**
 Round-robin over a pool of web proxies: nextWebProxy of internal/aitool/web.go. The cursor is an
 unsigned 64-bit counter shared by all requests.
 */
module WebProxies {
  import opened Wrappers

  const WRAP := 0x1_0000_0000_0000_0000

  type Cursor = c: nat | c < WRAP

  function Advance(cursor: Cursor): Cursor {
    if cursor + 1 == WRAP then 0 else cursor + 1
  }

  /** What is configured: nothing, a pool that cannot be had or read, or so many proxies. */
  datatype Pool = Unconfigured | Unavailable | Unreadable | Proxies(count: nat)

  datatype Failure = ConfigurationUnavailable | ConfigurationInvalid

  class Service {
    var webProxyCursor: Cursor

    /** The place in the pool of the proxy to use, None for a direct request; only a use moves the cursor. */
    method NextWebProxy(pool: Pool) returns (index: Result<Option<nat>, Failure>)
      modifies this
      ensures index == match pool
                       case Unconfigured => Ok(None)
                       case Unavailable => Err(ConfigurationUnavailable)
                       case Unreadable => Err(ConfigurationInvalid)
                       case Proxies(count) => Ok(if count == 0 then None else Some(old(webProxyCursor) % count))
      ensures webProxyCursor == if pool.Proxies? && pool.count > 0 then Advance(old(webProxyCursor))
              else old(webProxyCursor)
    {
      if pool.Unconfigured? {
        return Ok(None);
      }
      if pool.Unavailable? {
        return Err(ConfigurationUnavailable);
      }
      if pool.Unreadable? {
        return Err(ConfigurationInvalid);
      }
      if pool.count == 0 {
        return Ok(None);
      }
      index := Ok(Some(webProxyCursor % pool.count));
      webProxyCursor := Advance(webProxyCursor);
    }

    /** Requests one after another: how often each place gets used is what Uses says. */
    method Serve(requests: nat, proxies: nat) returns (uses: seq<nat>)
      requires proxies > 0
      modifies this
      ensures |uses| == proxies
      ensures forall place :: 0 <= place < proxies ==>
              uses[place] == Uses(old(webProxyCursor), requests, proxies, place)
    {
      uses := seq(proxies, _ => 0);
      for served := 0 to requests
        invariant |uses| == proxies
        invariant forall place :: 0 <= place < proxies ==>
                    uses[place] + Uses(webProxyCursor, requests - served, proxies, place)
                    == Uses(old(webProxyCursor), requests, proxies, place)
      {
        var index := NextWebProxy(Proxies(proxies));
        uses := uses[index.value.value := uses[index.value.value] + 1];
      }
    }
  }

  /** How often consecutive requests use one place of a pool, the cursor starting at a value. */
  function Uses(cursor: Cursor, requests: nat, proxies: nat, place: nat): nat
    requires place < proxies
    decreases requests
  {
    if requests == 0 then 0
    else (if cursor % proxies == place then 1 else 0) + Uses(Advance(cursor), requests - 1, proxies, place)
  }

  /** The same for a counter that never wraps, counted from the last request back. */
  function Hits(cursor: nat, requests: nat, proxies: nat, place: nat): nat
    requires place < proxies
  {
    if requests == 0 then 0
    else Hits(cursor, requests - 1, proxies, place) + if (cursor + requests - 1) % proxies == place then 1 else 0
  }

  lemma {:induction false} HitsSplit(cursor: nat, first: nat, second: nat, proxies: nat, place: nat)
    requires place < proxies
    ensures Hits(cursor, first + second, proxies, place)
            == Hits(cursor, first, proxies, place) + Hits(cursor + first, second, proxies, place)
  {
    if second > 0 {
      HitsSplit(cursor, first, second - 1, proxies, place);
    }
  }

  /** A run that reaches the end of the counter goes on from zero. */
  lemma {:induction false} UsesAreHits(cursor: Cursor, requests: nat, proxies: nat, place: nat)
    requires place < proxies && requests <= WRAP
    ensures Uses(cursor, requests, proxies, place)
         == if cursor + requests <= WRAP then Hits(cursor, requests, proxies, place)
            else Hits(cursor, WRAP - cursor, proxies, place) + Hits(0, requests - (WRAP - cursor), proxies, place)
    decreases requests
  {
    if requests > 0 {
      UsesAreHits(Advance(cursor), requests - 1, proxies, place);
      HitsSplit(cursor, 1, if cursor + requests <= WRAP then requests - 1 else WRAP - cursor - 1, proxies, place);
      assert Hits(cursor, 0, proxies, place) == 0;
      assert Hits(cursor, 1, proxies, place) == if cursor % proxies == place then 1 else 0;
    }
  }

  lemma MultipleIsFar(d: int, proxies: nat)
    ensures d >= 1 ==> d * proxies >= proxies
    ensures d <= -1 ==> d * proxies + proxies <= 0
  {
    if d >= 1 {
      assert (d - 1) * proxies >= 0;
    } else if d <= -1 {
      assert (-1 - d) * proxies >= 0;
    }
  }

  lemma SmallRemainder(n: nat, proxies: nat)
    requires n < proxies
    ensures n % proxies == n
  {
    MultipleIsFar(n / proxies, proxies);
    assert n == n / proxies * proxies + n % proxies;
  }

  lemma SameRemainder(cursor: nat, proxies: nat)
    requires proxies > 0
    ensures (cursor + proxies) % proxies == cursor % proxies
  {
    var q, q' := cursor / proxies, (cursor + proxies) / proxies;
    var r, r' := cursor % proxies, (cursor + proxies) % proxies;
    assert cursor == q * proxies + r && cursor + proxies == q' * proxies + r';
    assert (q' - q - 1) * proxies == q' * proxies - q * proxies - proxies;
    MultipleIsFar(q' - q - 1, proxies);
  }

  lemma {:induction false} FromZero(requests: nat, proxies: nat, place: nat)
    requires place < proxies && requests <= proxies
    ensures Hits(0, requests, proxies, place) == if place < requests then 1 else 0
  {
    if requests > 0 {
      FromZero(requests - 1, proxies, place);
      SmallRemainder(requests - 1, proxies);
    }
  }

  /** As many requests as there are proxies use each of them once. */
  lemma {:induction false} OneRound(cursor: nat, proxies: nat, place: nat)
    requires place < proxies
    ensures Hits(cursor, proxies, proxies, place) == 1
  {
    if cursor == 0 {
      FromZero(proxies, proxies, place);
    } else {
      OneRound(cursor - 1, proxies, place);
      HitsSplit(cursor - 1, 1, proxies, proxies, place);
      SameRemainder(cursor - 1, proxies);
      assert Hits(cursor - 1, 0, proxies, place) == 0;
      assert Hits(cursor - 1, 1, proxies, place) == if (cursor - 1) % proxies == place then 1 else 0;
    }
  }

  lemma {:induction false} Evenly(cursor: nat, requests: nat, proxies: nat, a: nat, b: nat)
    requires a < proxies && b < proxies
    ensures -1 <= Hits(cursor, requests, proxies, a) - Hits(cursor, requests, proxies, b) <= 1
  {
    if requests < proxies {
      OneRound(cursor, proxies, a);
      OneRound(cursor, proxies, b);
      HitsSplit(cursor, requests, proxies - requests, proxies, a);
      HitsSplit(cursor, requests, proxies - requests, proxies, b);
    } else {
      var rest := requests - proxies;
      Evenly(cursor, rest, proxies, a, b);
      OneRound(cursor + rest, proxies, a);
      OneRound(cursor + rest, proxies, b);
      HitsSplit(cursor, rest, proxies, proxies, a);
      HitsSplit(cursor, rest, proxies, proxies, b);
    }
  }

  /** Requests are spread evenly over a pool, to within one; to within two while the counter wraps once. */
  lemma RoundRobinIsEven(cursor: Cursor, requests: nat, proxies: nat, a: nat, b: nat)
    requires a < proxies && b < proxies && requests <= WRAP
    ensures cursor + requests <= WRAP ==>
            -1 <= Uses(cursor, requests, proxies, a) - Uses(cursor, requests, proxies, b) <= 1
    ensures -2 <= Uses(cursor, requests, proxies, a) - Uses(cursor, requests, proxies, b) <= 2
  {
    hide Uses, Hits;
    UsesAreHits(cursor, requests, proxies, a);
    UsesAreHits(cursor, requests, proxies, b);
    if cursor + requests <= WRAP {
      Evenly(cursor, requests, proxies, a, b);
    } else {
      Evenly(cursor, WRAP - cursor, proxies, a, b);
      Evenly(0, requests - (WRAP - cursor), proxies, a, b);
    }
  }
}
