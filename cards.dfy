/** Cards and the 52-card deck a table rebuilds for every hand. */
module Cards {

  /** A playing card: a suit letter and a value letter, as the table stores them. */
  datatype Card = Card(suit: char, value: char)

  /** The four suits (spades, hearts, clubs, diamonds) in build order. */
  const Suits: string := "shcd"

  /** The thirteen values, deuce to ace, in build order. */
  const Values: string := "23456789TJQKA"

  const DeckSize: nat := 52

  /** The card the ordered (unshuffled) build puts at position k: suits outer, values inner. */
  function CardAt(k: nat): Card
    requires k < DeckSize
  {
    Card(Suits[k / 13], Values[k % 13])
  }

  /** The unshuffled deck: CardAt at every position. */
  function OrderedDeck(): (d: seq<Card>)
    ensures |d| == DeckSize
    ensures forall k :: 0 <= k < DeckSize ==> d[k] == CardAt(k)
  {
    seq(DeckSize, k requires 0 <= k < DeckSize => CardAt(k))
  }

  /** A card of the standard pack: a known suit and a known value. */
  predicate IsStandard(c: Card) {
    c.suit in Suits && c.value in Values
  }

  predicate Distinct(cs: seq<Card>) {
    forall i, j :: 0 <= i < |cs| && 0 <= j < |cs| && i != j ==> cs[i] != cs[j]
  }

  /**
   * The nested suit/value loops that fill the deck before it is shuffled.
   * Card s * 13 + v is suit s with value v.
   */
  method BuildDeck() returns (deck: seq<Card>)
    ensures |deck| == DeckSize
    ensures forall k :: 0 <= k < DeckSize ==> deck[k] == Card(Suits[k / 13], Values[k % 13])
  {
    deck := [];
    for s := 0 to |Suits|
      invariant |deck| == 13 * s
      invariant forall k :: 0 <= k < |deck| ==> deck[k] == Card(Suits[k / 13], Values[k % 13])
    {
      for v := 0 to |Values|
        invariant |deck| == 13 * s + v
        invariant forall k :: 0 <= k < |deck| ==> deck[k] == Card(Suits[k / 13], Values[k % 13])
      {
        ghost var k := |deck|;
        assert k / 13 == s && k % 13 == v;
        deck := deck + [Card(Suits[s], Values[v])];
      }
    }
  }

  lemma SuitsDistinct(a: nat, b: nat)
    requires a < |Suits| && b < |Suits| && Suits[a] == Suits[b]
    ensures a == b
  {
  }

  lemma ValuesDistinct(a: nat, b: nat)
    requires a < |Values| && b < |Values| && Values[a] == Values[b]
    ensures a == b
  {
  }

  /** Two positions of the ordered build hold the same card only if they are the same position. */
  lemma CardAtInjective(i: nat, j: nat)
    requires i < DeckSize && j < DeckSize && CardAt(i) == CardAt(j)
    ensures i == j
  {
    SuitsDistinct(i / 13, j / 13);
    ValuesDistinct(i % 13, j % 13);
  }

  /** Every suit/value pair is built exactly at position s * 13 + v. */
  lemma CardAtCovers(c: Card)
    requires IsStandard(c)
    ensures exists k :: 0 <= k < DeckSize && CardAt(k) == c
  {
    var s :| 0 <= s < |Suits| && Suits[s] == c.suit;
    var v :| 0 <= v < |Values| && Values[v] == c.value;
    var k := s * 13 + v;
    assert k / 13 == s && k % 13 == v;
    assert CardAt(k) == c;
  }

  /** A shuffle, given as the sequence of source positions it picks: a permutation of 0..n-1. */
  predicate IsPermutation(perm: seq<nat>, n: nat) {
    |perm| == n &&
    (forall i :: 0 <= i < n ==> perm[i] < n) &&
    (forall i, j :: 0 <= i < n && 0 <= j < n && i != j ==> perm[i] != perm[j])
  }

  /**
   * The deck after the shuffle: position i holds the built card at perm[i].
   * That it holds exactly the built cards is `ShuffleKeepsCards`.
   */
  function Shuffle(built: seq<Card>, perm: seq<nat>): (d: seq<Card>)
    requires IsPermutation(perm, |built|)
    ensures |d| == |built|
    ensures forall i :: 0 <= i < |d| ==> d[i] == built[perm[i]]
  {
    seq(|perm|, i requires 0 <= i < |perm| => built[perm[i]])
  }

  /** The built deck holds the 52 standard cards, each once, and every standard card appears. */
  lemma {:induction false} BuiltDeckIsFull(deck: seq<Card>)
    requires |deck| == DeckSize
    requires forall k :: 0 <= k < DeckSize ==> deck[k] == CardAt(k)
    ensures Distinct(deck)
    ensures forall c :: IsStandard(c) ==> c in deck
    ensures forall k :: 0 <= k < |deck| ==> IsStandard(deck[k])
  {
    forall i, j | 0 <= i < |deck| && 0 <= j < |deck| && i != j
      ensures deck[i] != deck[j]
    {
      if deck[i] == deck[j] { CardAtInjective(i, j); }
    }
    forall c | IsStandard(c)
      ensures c in deck
    {
      CardAtCovers(c);
      var k :| 0 <= k < DeckSize && CardAt(k) == c;
      assert deck[k] == c;
    }
  }

  /** Shuffling a deck of distinct cards keeps them distinct. */
  lemma ShufflePreservesDistinct(built: seq<Card>, perm: seq<nat>)
    requires Distinct(built) && IsPermutation(perm, |built|)
    ensures Distinct(Shuffle(built, perm))
  {
  }

  /** Pigeonhole: distinct naturals all below n number at most n. */
  lemma {:induction false} DistinctBelow(s: seq<nat>, n: nat)
    requires forall i :: 0 <= i < |s| ==> s[i] < n
    requires forall i, j :: 0 <= i < j < |s| ==> s[i] != s[j]
    ensures |s| <= n
    decreases n
  {
    if |s| > 0 {
      assert s[0] < n;
      if j :| 0 <= j < |s| && s[j] == n - 1 {
        var t := s[..j] + s[j + 1..];
        assert forall i :: 0 <= i < |t| ==> t[i] == if i < j then s[i] else s[i + 1];
        DistinctBelow(t, n - 1);
      } else {
        DistinctBelow(s, n - 1);
      }
    }
  }

  /** A permutation of 0..n-1 is onto: every position below n is picked. */
  lemma PermutationCovers(perm: seq<nat>, n: nat, k: nat)
    requires IsPermutation(perm, n) && k < n
    ensures k in perm
  {
    if k !in perm {
      // squeeze out the missing k: n distinct values below n - 1
      var t := seq(n, i requires 0 <= i < n => if perm[i] > k then perm[i] - 1 else perm[i]);
      forall i | 0 <= i < n
        ensures t[i] < n - 1
      {
        assert perm[i] in perm;
      }
      DistinctBelow(t, n - 1);
      assert false;
    }
  }

  /** In a sequence of distinct cards each card occurs once or not at all. */
  lemma {:induction false} DistinctMultiset(cs: seq<Card>)
    requires Distinct(cs)
    ensures forall c :: multiset(cs)[c] == if c in cs then 1 else 0
  {
    if cs != [] {
      var init, last := cs[..|cs| - 1], cs[|cs| - 1];
      DistinctPrefix(cs, |cs| - 1);
      DistinctMultiset(init);
      assert cs == init + [last];
      forall j | 0 <= j < |init|
        ensures init[j] != last
      {
        assert init[j] == cs[j];
      }
    }
  }

  /** The shuffle of a deck of distinct cards holds exactly the same cards. */
  lemma ShuffleKeepsCards(built: seq<Card>, perm: seq<nat>)
    requires Distinct(built) && IsPermutation(perm, |built|)
    ensures multiset(Shuffle(built, perm)) == multiset(built)
  {
    var d := Shuffle(built, perm);
    forall c | c in built
      ensures c in d
    {
      var k :| 0 <= k < |built| && built[k] == c;
      PermutationCovers(perm, |built|, k);
      var i :| 0 <= i < |perm| && perm[i] == k;
      assert d[i] == c;
    }
    DistinctMultiset(built);
    DistinctMultiset(d);
    assert forall c :: multiset(d)[c] == multiset(built)[c];
  }

  /** Popping cards off the end keeps the rest distinct. */
  lemma DistinctPrefix(cs: seq<Card>, k: nat)
    requires Distinct(cs) && k <= |cs|
    ensures Distinct(cs[..k])
  {
    assert forall i :: 0 <= i < k ==> cs[..k][i] == cs[i];
  }
}
