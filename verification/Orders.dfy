/** The orders in which the entries of a hash map can be visited: any order, each key once. */
module Orders {
  ghost predicate Lists(order: seq<string>, keys: set<string>) {
    (forall k :: k in keys <==> k in order) && Distinct(order)
  }

  function Elements(order: seq<string>): set<string> {
    set k | k in order
  }

  ghost predicate Distinct(order: seq<string>) {
    forall i, j :: 0 <= i < j < |order| ==> order[i] != order[j]
  }

  /** The keys visited up to `k` and including it; all of them when `k` is not visited. */
  function UpTo(order: seq<string>, k: string): set<string> {
    if order == [] then {}
    else if k in order[..|order| - 1] then UpTo(order[..|order| - 1], k)
    else Elements(order)
  }

  /** The keys visited after `k`; all of them when `k` is not visited. */
  function After(order: seq<string>, k: string): set<string> {
    if order == [] || order[|order| - 1] == k then {}
    else After(order[..|order| - 1], k) + {order[|order| - 1]}
  }

  lemma NextKey(order: seq<string>, next: string)
    ensures Elements(order + [next]) == Elements(order) + {next}
    ensures Distinct(order) && next !in order ==> Distinct(order + [next])
    ensures (order + [next])[..|order|] == order
  {
  }

  lemma {:induction false} UpToMeans(order: seq<string>, i: nat)
    requires Distinct(order) && i < |order|
    ensures UpTo(order, order[i]) == Elements(order[..i + 1])
    decreases order
  {
    var n := |order| - 1;
    if i == n {
      assert order[..i + 1] == order;
    } else {
      UpToMeans(order[..n], i);
      assert order[..n][..i + 1] == order[..i + 1];
    }
  }

  lemma {:induction false} AfterMeans(order: seq<string>, i: nat)
    requires Distinct(order) && i < |order|
    ensures After(order, order[i]) == Elements(order[i + 1..])
    decreases order
  {
    var n := |order| - 1;
    if i == n {
    } else {
      AfterMeans(order[..n], i);
      assert order[i + 1..] == order[..n][i + 1..] + [order[n]];
      NextKey(order[..n][i + 1..], order[n]);
    }
  }

  lemma {:induction false} Unvisited(order: seq<string>, k: string)
    requires k !in order
    ensures UpTo(order, k) == Elements(order) == After(order, k)
  {
    if order == [] {
    } else {
      var n := |order| - 1;
      Unvisited(order[..n], k);
      assert order == order[..n] + [order[n]];
      NextKey(order[..n], order[n]);
    }
  }

  method KeysInSomeOrder(keys: set<string>) returns (order: seq<string>)
    ensures Lists(order, keys)
  {
    order := [];
    var rest := keys;
    while rest != {}
      invariant rest <= keys && Lists(order, keys - rest)
      decreases rest
    {
      var k :| k in rest;
      rest := rest - {k};
      order := order + [k];
    }
  }

  /** Every set of keys has an order, and any of its keys can come first. */
  lemma {:induction false} OrderFrom(keys: set<string>, first: string) returns (order: seq<string>)
    requires first in keys
    ensures Lists(order, keys) && order[0] == first
    decreases keys
  {
    var others := keys - {first};
    if others == {} {
      order := [first];
    } else {
      var next :| next in others;
      var rest := OrderFrom(others, next);
      order := [first] + rest;
    }
  }
}
