/** Price selection on the hedging venue's order book (`findPrice`). */
module OrderBook {
  import opened Orders

  /** Cumulative size of the first `n` levels of `book`. */
  function Cum(book: seq<Level>, n: nat): real
    requires n <= |book|
  {
    if n == 0 then 0.0 else Cum(book, n - 1) + book[n - 1].size
  }

  /** Level `k` is where the cumulative depth first can reach `target`:
      the sizes of levels 0..k add up to at least `target`. */
  predicate Reaches(book: seq<Level>, k: nat, target: real)
    requires k < |book|
  {
    Cum(book, k + 1) >= target
  }

  /** The depth `findPrice` asks for: a third of the requested size. */
  function Target(size: real): real
  {
    size / 3.0
  }

  /** The `for (const layer of orderbook)` walk, starting at level `i` with
      the running sum `acc`; answers the index of the level it stops at, or
      `None` when the book runs out first. */
  function Walk(book: seq<Level>, i: nat, acc: real, target: real): (r: Option<nat>)
    requires i <= |book|
    ensures r.Some? ==> i <= r.value < |book|
    decreases |book| - i
  {
    if i == |book| then None
    else if acc + book[i].size >= target then Some(i)
    else Walk(book, i + 1, acc + book[i].size, target)
  }

  /** `findPrice(orderbook, size)`: the price of the first level whose
      cumulative size reaches `size / 3`, else the best level's price.
      On an empty book the fallback `orderbook[0][0]` throws: `None`. */
  function FindPrice(book: seq<Level>, size: real): (r: Option<real>)
    ensures r.None? <==> |book| == 0
    ensures r.Some? ==> exists k :: 0 <= k < |book| && book[k].price == r.value
  {
    match Walk(book, 0, 0.0, Target(size))
    case Some(k) => Some(book[k].price)
    case None => if |book| == 0 then None else Some(book[0].price)
  }

  /** Started with the true running sum, the walk stops exactly at the first
      level whose cumulative depth reaches `target`. */
  lemma {:induction false} WalkStopsAtFirstReaching(book: seq<Level>, i: nat, target: real)
    requires i <= |book|
    ensures Walk(book, i, Cum(book, i), target).Some?
        <==> exists k :: i <= k < |book| && Reaches(book, k, target)
    ensures Walk(book, i, Cum(book, i), target).Some? ==>
              var k := Walk(book, i, Cum(book, i), target).value;
              Reaches(book, k, target) &&
              forall j :: i <= j < k ==> !Reaches(book, j, target)
    decreases |book| - i
  {
    if i < |book| {
      assert Cum(book, i + 1) == Cum(book, i) + book[i].size;
      if !Reaches(book, i, target) {
        WalkStopsAtFirstReaching(book, i + 1, target);
        forall k | i <= k < |book| && Reaches(book, k, target)
          ensures i + 1 <= k
        {
        }
      }
    }
  }

  /** `findPrice` on a non-empty book: the first level whose cumulative size
      reaches a third of `size`; when no level does, the best level. */
  lemma FindPriceFirstReachingLevel(book: seq<Level>, size: real)
    requires |book| > 0
    ensures (exists k :: 0 <= k < |book| && Reaches(book, k, Target(size))) ==>
              exists k :: 0 <= k < |book| && Reaches(book, k, Target(size))
                && (forall j :: 0 <= j < k ==> !Reaches(book, j, Target(size)))
                && FindPrice(book, size) == Some(book[k].price)
    ensures (forall k :: 0 <= k < |book| ==> !Reaches(book, k, Target(size))) ==>
              FindPrice(book, size) == Some(book[0].price)
  {
    WalkStopsAtFirstReaching(book, 0, Target(size));
  }

  /** With a non-positive `size` the best level already reaches `size / 3`
      as soon as its own size is non-negative. The buy side passes the
      negative delta, so it always gets the top bid. */
  lemma FindPriceNonPositiveSize(book: seq<Level>, size: real)
    requires |book| > 0 && book[0].size >= 0.0
    requires size <= 0.0
    ensures FindPrice(book, size) == Some(book[0].price)
  {
    assert Reaches(book, 0, Target(size));
    FindPriceFirstReachingLevel(book, size);
  }

  /** A sell of delta 1.2 against asks [[20, 0.1], [20.1, 0.5]]:
      the cumulative 0.6 reaches 0.4 at the second level. */
  lemma FindPriceWalksPastThinLevel()
    ensures FindPrice([Level(20.0, 0.1), Level(20.1, 0.5)], 1.2) == Some(20.1)
  {
  }
}
