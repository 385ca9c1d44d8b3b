/** Drawing random keys until one is new. The random strings are given; some of them is new. */
module RandomDraws {

  predicate Draws<K(==), V>(draws: seq<K>, taken: map<K, V>) {
    draws != [] && (draws[0] in taken ==> Draws(draws[1..], taken))
  }

  /** The first drawn key that is not taken. */
  function Fresh<K(==), V>(draws: seq<K>, taken: map<K, V>): (key: K)
    requires Draws(draws, taken)
    ensures key in draws && key !in taken
  {
    if draws[0] in taken then Fresh(draws[1..], taken) else draws[0]
  }

  /** The loop that draws again as long as the key is taken. */
  method DrawFresh<K(==), V>(draws: seq<K>, taken: map<K, V>) returns (key: K)
    requires Draws(draws, taken)
    ensures key == Fresh(draws, taken)
  {
    var i := 0;
    while draws[i] in taken
      invariant 0 <= i < |draws|
      invariant Draws(draws[i..], taken) && Fresh(draws[i..], taken) == Fresh(draws, taken)
      decreases |draws| - i
    {
      assert draws[i..][1..] == draws[i + 1..];
      i := i + 1;
    }
    key := draws[i];
  }
}
