/**
 * Opening a hand, on values: readying the seats, posting the blinds and
 * dealing the hole cards, each as a function of the seats before it, with
 * the facts the table relies on once a hand is open.
 */
module Opening {
  import opened Cards
  import opened Seats

  datatype BlindKind = SmallBlindPost | BigBlindPost

  /** `startRound` readies a funded seat for the hand and sits out an empty one. */
  function PrepareSeat(p: Seat): Seat {
    if p.chips > 0
    then p.(hand := [], status := Active, currentBet := 0, isDealer := false, isSmallBlind := false, isBigBlind := false)
    else p.(status := Sitout)
  }

  /** The seat after `postBlind`: it pays the blind, or all it has when that is less. */
  function PostedBlind(p: Seat, amount: nat, kind: BlindKind): Seat {
    var paid := Min(amount, p.chips);
    var q := p.(chips := p.chips - paid, currentBet := paid);
    if kind == SmallBlindPost then q.(isSmallBlind := true) else q.(isBigBlind := true)
  }

  /** Every seat readied, as the seat pass of `startRound` leaves them. */
  function Prepared(ps: seq<Seat>): (qs: seq<Seat>)
    ensures |qs| == |ps|
  {
    seq(|ps|, i requires 0 <= i < |ps| => PrepareSeat(ps[i]))
  }

  /** The seats after seat sb posts the small blind and then seat bb the big blind. */
  function PostTwo(ps: seq<Seat>, sb: nat, bb: nat): (qs: seq<Seat>)
    requires sb < |ps| && bb < |ps|
    ensures |qs| == |ps|
  {
    var q := ps[sb := PostedBlind(ps[sb], SmallBlind, SmallBlindPost)];
    q[bb := PostedBlind(q[bb], BigBlind, BigBlindPost)]
  }

  /** The chips those two posts move into the pot, in the same order. */
  function PaidTwo(ps: seq<Seat>, sb: nat, bb: nat): int
    requires sb < |ps| && bb < |ps|
  {
    var q := ps[sb := PostedBlind(ps[sb], SmallBlind, SmallBlindPost)];
    Min(SmallBlind, ps[sb].chips) + Min(BigBlind, q[bb].chips)
  }

  /** The seats after the blinds of `startRound`, seat d being the dealer. */
  function Blinded(ps: seq<Seat>, d: nat): (qs: seq<Seat>)
    requires |ps| > 0
    ensures |qs| == |ps|
  {
    PostTwo(ps, Next(d, |ps|), Next(Next(d, |ps|), |ps|))
  }

  /** The chips the two blinds move into the pot. */
  function BlindsPaid(ps: seq<Seat>, d: nat): int
    requires |ps| > 0
  {
    PaidTwo(ps, Next(d, |ps|), Next(Next(d, |ps|), |ps|))
  }

  /**
   * The card active seat i takes when, after `skip` cards have left the end
   * of d, every active seat in seat order pops one card.
   */
  function DealtCard(ps: seq<Seat>, d: seq<Card>, skip: nat, i: nat): Card
    requires i < |ps| && ps[i].status == Active
    requires skip + |ActiveIndices(ps)| <= |d|
  {
    ActiveUpToMono(ps, i, |ps|);
    d[|d| - 1 - skip - |ActiveUpTo(ps, i)|]
  }

  /**
   * The hole card seat i gets in dealing round 0 or 1 from deck d: each round
   * pops one card per active seat, in seat order, from the end of the deck.
   */
  function HoleCard(ps: seq<Seat>, d: seq<Card>, round: nat, i: nat): Card
    requires i < |ps| && ps[i].status == Active && round < 2
    requires 2 * |ActiveIndices(ps)| <= |d|
  {
    DealtCard(ps, d, if round == 0 then 0 else |ActiveIndices(ps)|, i)
  }

  /**
   * After `round` passes over seats with the statuses of ps, the next pass
   * deals active seat i its hole card of that round.
   */
  lemma PassCard(ps: seq<Seat>, d: seq<Card>, cur: seq<Seat>, round: nat, i: nat)
    requires round < 2 && 2 * |ActiveIndices(ps)| <= |d|
    requires |cur| == |ps| && forall j :: 0 <= j < |ps| ==> cur[j].status == ps[j].status
    requires i < |ps| && ps[i].status == Active
    ensures var top := d[..|d| - round * |ActiveIndices(ps)|];
      |ActiveIndices(cur)| <= |top| && DealtCard(cur, top, 0, i) == HoleCard(ps, d, round, i)
  {
    ActiveUpToSameStatus(ps, cur, |ps|);
    ActiveUpToSameStatus(ps, cur, i);
    ActiveUpToMono(ps, i, |ps|);
  }

  /** The seats after the two dealing passes: each active seat adds its two hole cards. */
  function WithHoleCards(ps: seq<Seat>, d: seq<Card>): (qs: seq<Seat>)
    requires 2 * |ActiveIndices(ps)| <= |d|
    ensures |qs| == |ps|
  {
    seq(|ps|, i requires 0 <= i < |ps| =>
      if ps[i].status == Active
      then ps[i].(hand := ps[i].hand + [HoleCard(ps, d, 0, i), HoleCard(ps, d, 1, i)])
      else ps[i])
  }

  /**
   * Seat i of ps is seat i of r readied for a hand: the same player, active
   * exactly when it has chips, sitting out otherwise.
   */
  ghost predicate ReadiedFrom(ps: seq<Seat>, r: seq<Seat>) {
    |ps| == |r| &&
    forall i :: 0 <= i < |ps| ==>
      ps[i].id == r[i].id && ps[i].name == r[i].name && ps[i].isHost == r[i].isHost &&
      ps[i].lastActive == r[i].lastActive && ps[i].status == (if r[i].chips > 0 then Active else Sitout)
  }

  /** Every active seat holds exactly its two hole cards from deck d. */
  ghost predicate HoleCardsDealt(ps: seq<Seat>, d: seq<Card>)
    requires 2 * |ActiveIndices(ps)| <= |d|
  {
    forall i :: 0 <= i < |ps| && ps[i].status == Active ==>
      ps[i].hand == [HoleCard(ps, d, 0, i), HoleCard(ps, d, 1, i)]
  }

  /**
   * Readying keeps every player and every stack, makes exactly the funded
   * seats active, and gives each of them an empty hand, no bet and no flag.
   */
  lemma PreparedSeats(ps: seq<Seat>)
    ensures ReadiedFrom(Prepared(ps), ps)
    ensures forall i :: 0 <= i < |ps| ==> Prepared(ps)[i].chips == ps[i].chips
    ensures forall i :: 0 <= i < |ps| && Prepared(ps)[i].status == Active ==>
      Prepared(ps)[i].hand == [] && Prepared(ps)[i].currentBet == 0 &&
      !Prepared(ps)[i].isDealer && !Prepared(ps)[i].isSmallBlind && !Prepared(ps)[i].isBigBlind
  {
  }

  /** As many seats are active after readying as had chips before. */
  lemma PreparedActive(ps: seq<Seat>)
    ensures |ActiveIndices(Prepared(ps))| == FundedCount(ps) <= |ps|
  {
    FundedMatchesActive(Prepared(ps), ps, |ps|);
  }

  /** Readying moves no chips. */
  lemma PreparedChips(ps: seq<Seat>)
    ensures SumChips(Prepared(ps)) == SumChips(ps)
  {
    SumChipsSameStacks(Prepared(ps), ps);
  }

  lemma PreparedStacks(ps: seq<Seat>)
    requires StacksOk(ps)
    ensures StacksOk(Prepared(ps))
  {
  }

  /**
   * Posting at two different seats: sb pays the small blind, bb the big
   * blind, nobody else changes, and what leaves the two stacks is exactly
   * what the posts pay in.
   */
  lemma PostTwoSpec(ps: seq<Seat>, sb: nat, bb: nat)
    requires sb < |ps| && bb < |ps| && sb != bb
    ensures PostTwo(ps, sb, bb)[sb] == PostedBlind(ps[sb], SmallBlind, SmallBlindPost)
    ensures PostTwo(ps, sb, bb)[bb] == PostedBlind(ps[bb], BigBlind, BigBlindPost)
    ensures forall i :: 0 <= i < |ps| && i != sb && i != bb ==> PostTwo(ps, sb, bb)[i] == ps[i]
    ensures PaidTwo(ps, sb, bb) == Min(SmallBlind, ps[sb].chips) + Min(BigBlind, ps[bb].chips)
  {
  }

  /** Blinds never take more than a stack holds. */
  lemma PostTwoStacks(ps: seq<Seat>, sb: nat, bb: nat)
    requires sb < |ps| && bb < |ps| && StacksOk(ps)
    ensures StacksOk(PostTwo(ps, sb, bb)) && PaidTwo(ps, sb, bb) >= 0
  {
  }

  lemma PostTwoChips(ps: seq<Seat>, sb: nat, bb: nat)
    requires sb < |ps| && bb < |ps|
    ensures SumChips(PostTwo(ps, sb, bb)) + PaidTwo(ps, sb, bb) == SumChips(ps)
  {
    var q := ps[sb := PostedBlind(ps[sb], SmallBlind, SmallBlindPost)];
    SumChipsUpdate(ps, sb, PostedBlind(ps[sb], SmallBlind, SmallBlindPost));
    SumChipsUpdate(q, bb, PostedBlind(q[bb], BigBlind, BigBlindPost));
  }

  /** Posting blinds changes no status, so the active seats stay the same. */
  lemma BlindedStatus(ps: seq<Seat>, d: nat)
    requires 0 < |ps|
    ensures forall i :: 0 <= i < |ps| ==> Blinded(ps, d)[i].status == ps[i].status
    ensures ActiveIndices(Blinded(ps, d)) == ActiveIndices(ps)
  {
    ActiveUpToSameStatus(Blinded(ps, d), ps, |ps|);
  }

  /** Dealing changes nothing but the active seats' hands: statuses, stacks and active seats stay. */
  lemma WithHoleCardsKeeps(ps: seq<Seat>, d: seq<Card>)
    requires 2 * |ActiveIndices(ps)| <= |d|
    ensures forall i :: 0 <= i < |ps| ==> WithHoleCards(ps, d)[i] == ps[i].(hand := WithHoleCards(ps, d)[i].hand)
    ensures forall i :: 0 <= i < |ps| && ps[i].status != Active ==> WithHoleCards(ps, d)[i] == ps[i]
    ensures ActiveIndices(WithHoleCards(ps, d)) == ActiveIndices(ps)
    ensures SumChips(WithHoleCards(ps, d)) == SumChips(ps)
    ensures StacksOk(ps) ==> StacksOk(WithHoleCards(ps, d))
  {
    var qs := WithHoleCards(ps, d);
    ActiveUpToSameStatus(qs, ps, |ps|);
    SumChipsSameStacks(qs, ps);
  }

  /** The totals dealing keeps: the same active seats, the same chips, no stack gone negative. */
  lemma WithHoleCardsTotals(ps: seq<Seat>, d: seq<Card>)
    requires 2 * |ActiveIndices(ps)| <= |d|
    ensures ActiveIndices(WithHoleCards(ps, d)) == ActiveIndices(ps)
    ensures SumChips(WithHoleCards(ps, d)) == SumChips(ps)
    ensures StacksOk(ps) ==> StacksOk(WithHoleCards(ps, d))
  {
    WithHoleCardsKeeps(ps, d);
  }

  /** When the active seats held no cards, each ends with exactly its two hole cards. */
  lemma WithHoleCardsDealt(ps: seq<Seat>, d: seq<Card>)
    requires 2 * |ActiveIndices(ps)| <= |d|
    requires forall i :: 0 <= i < |ps| && ps[i].status == Active ==> ps[i].hand == []
    ensures ActiveIndices(WithHoleCards(ps, d)) == ActiveIndices(ps)
    ensures HoleCardsDealt(WithHoleCards(ps, d), d)
  {
    var qs := WithHoleCards(ps, d);
    ActiveUpToSameStatus(qs, ps, |ps|);
    forall i | 0 <= i < |ps| && qs[i].status == Active
      ensures qs[i].hand == [HoleCard(qs, d, 0, i), HoleCard(qs, d, 1, i)]
    {
      ActiveUpToSameStatus(qs, ps, i);
    }
  }

  /**
   * The seats of a freshly opened hand, from the swept seats r, the new dealer
   * d and the shuffled deck s: the same players, the funded ones active, the
   * blinds on the two seats after the dealer, two hole cards per active seat,
   * and every chip either still in a stack or paid in as a blind.
   */
  lemma OpenedSeatsSpec(r: seq<Seat>, d: nat, s: seq<Card>)
    requires StacksOk(r) && 2 <= |r| && d < |r| && 2 <= FundedCount(r) && 2 * FundedCount(r) <= |s|
    ensures |ActiveIndices(Blinded(Prepared(r), d))| == FundedCount(r)
    ensures var ps := WithHoleCards(Blinded(Prepared(r), d), s);
      var sb := Next(d, |r|);
      var bb := Next(Next(d, |r|), |r|);
      ReadiedFrom(ps, r) && StacksOk(ps) &&
      ps[sb].isSmallBlind && ps[bb].isBigBlind &&
      BlindsPaid(Prepared(r), d) == Min(SmallBlind, r[sb].chips) + Min(BigBlind, r[bb].chips) &&
      BlindsPaid(Prepared(r), d) >= 0 && SumChips(ps) + BlindsPaid(Prepared(r), d) == SumChips(r) &&
      |ActiveIndices(ps)| == FundedCount(r) && HasActive(ps) &&
      HoleCardsDealt(ps, s)
  {
    OpenedSeatsShape(r, d, s);
    OpenedSeatsChips(r, d, s);
  }

  /** The players, blind flags and hole cards of a freshly opened hand. */
  lemma OpenedSeatsShape(r: seq<Seat>, d: nat, s: seq<Card>)
    requires 2 <= |r| && d < |r| && 2 * FundedCount(r) <= |s|
    ensures |ActiveIndices(Blinded(Prepared(r), d))| == FundedCount(r)
    ensures var ps := WithHoleCards(Blinded(Prepared(r), d), s);
      ReadiedFrom(ps, r) && ps[Next(d, |r|)].isSmallBlind && ps[Next(Next(d, |r|), |r|)].isBigBlind &&
      |ActiveIndices(ps)| == FundedCount(r) && HoleCardsDealt(ps, s)
  {
    OpenedPlayers(r, d, s);
    OpenedHoleCards(r, d, s);
  }

  /** Dealing keeps the players and blind flags of the blinded seats. */
  lemma OpenedPlayers(r: seq<Seat>, d: nat, s: seq<Card>)
    requires 2 <= |r| && d < |r| && 2 * FundedCount(r) <= |s|
    ensures |ActiveIndices(Blinded(Prepared(r), d))| == FundedCount(r)
    ensures var ps := WithHoleCards(Blinded(Prepared(r), d), s);
      ReadiedFrom(ps, r) && ps[Next(d, |r|)].isSmallBlind && ps[Next(Next(d, |r|), |r|)].isBigBlind
  {
    OpenedCount(r, d);
    OpenedBlinds(r, d);
    WithHoleCardsReadied(Blinded(Prepared(r), d), r, s, Next(d, |r|), Next(Next(d, |r|), |r|));
  }

  /** Dealing hole cards keeps what a readied table took over from r, and every blind flag. */
  lemma WithHoleCardsReadied(ps: seq<Seat>, r: seq<Seat>, s: seq<Card>, i: nat, j: nat)
    requires 2 * |ActiveIndices(ps)| <= |s| && ReadiedFrom(ps, r) && i < |ps| && j < |ps|
    ensures ReadiedFrom(WithHoleCards(ps, s), r)
    ensures WithHoleCards(ps, s)[i].isSmallBlind == ps[i].isSmallBlind
    ensures WithHoleCards(ps, s)[j].isBigBlind == ps[j].isBigBlind
  {
    WithHoleCardsKeeps(ps, s);
  }

  /** The readied seats held no cards, so each active one ends with exactly its two hole cards. */
  lemma OpenedHoleCards(r: seq<Seat>, d: nat, s: seq<Card>)
    requires 2 <= |r| && d < |r| && 2 * FundedCount(r) <= |s|
    ensures |ActiveIndices(Blinded(Prepared(r), d))| == FundedCount(r)
    ensures var ps := WithHoleCards(Blinded(Prepared(r), d), s);
      |ActiveIndices(ps)| == FundedCount(r) && HoleCardsDealt(ps, s)
  {
    OpenedCount(r, d);
    OpenedBlinds(r, d);
    WithHoleCardsDealt(Blinded(Prepared(r), d), s);
  }

  /** The readied, blinded seats: the same players, the funded ones active with empty hands. */
  lemma OpenedBlinds(r: seq<Seat>, d: nat)
    requires 2 <= |r| && d < |r|
    ensures var bl := Blinded(Prepared(r), d);
      var sb := Next(d, |r|);
      var bb := Next(Next(d, |r|), |r|);
      ReadiedFrom(bl, r) && bl[sb].isSmallBlind && bl[bb].isBigBlind &&
      (forall i :: 0 <= i < |r| && bl[i].status == Active ==> bl[i].hand == [])
  {
    PreparedSeats(r);
    NextTwoDiffer(d, |r|);
    PostTwoSpec(Prepared(r), Next(d, |r|), Next(Next(d, |r|), |r|));
  }

  /** Every chip of the swept seats is, after the blinds, in a stack or paid in as a blind. */
  lemma OpenedBlindsChips(r: seq<Seat>, d: nat)
    requires 2 <= |r| && d < |r|
    ensures var sb := Next(d, |r|);
      var bb := Next(Next(d, |r|), |r|);
      BlindsPaid(Prepared(r), d) == Min(SmallBlind, r[sb].chips) + Min(BigBlind, r[bb].chips) &&
      SumChips(Blinded(Prepared(r), d)) + BlindsPaid(Prepared(r), d) == SumChips(r)
  {
    var pr := Prepared(r);
    var sb := Next(d, |r|);
    var bb := Next(Next(d, |r|), |r|);
    NextTwoDiffer(d, |r|);
    PostTwoSpec(pr, sb, bb);
    PostTwoChips(pr, sb, bb);
    PreparedChips(r);
    assert pr[sb].chips == r[sb].chips && pr[bb].chips == r[bb].chips;
  }

  lemma OpenedBlindsStacks(r: seq<Seat>, d: nat)
    requires 2 <= |r| && d < |r| && StacksOk(r)
    ensures StacksOk(Blinded(Prepared(r), d)) && BlindsPaid(Prepared(r), d) >= 0
  {
    PreparedStacks(r);
    PostTwoStacks(Prepared(r), Next(d, |r|), Next(Next(d, |r|), |r|));
  }

  /** As many seats are active in the blinded hand as had chips before it. */
  lemma OpenedCount(r: seq<Seat>, d: nat)
    requires 2 <= |r| && d < |r|
    ensures |ActiveIndices(Blinded(Prepared(r), d))| == FundedCount(r) <= |r|
  {
    PreparedActive(r);
    BlindedStatus(Prepared(r), d);
  }

  /**
   * The chip facts of a freshly opened hand: no negative stack, the blinds
   * paid by the two seats after the dealer, every chip in a stack or in the
   * blinds, and as many active seats as funded ones.
   */
  lemma OpenedSeatsChips(r: seq<Seat>, d: nat, s: seq<Card>)
    requires StacksOk(r) && 2 <= |r| && d < |r| && 1 <= FundedCount(r) && 2 * FundedCount(r) <= |s|
    ensures |ActiveIndices(Blinded(Prepared(r), d))| == FundedCount(r)
    ensures var ps := WithHoleCards(Blinded(Prepared(r), d), s);
      StacksOk(ps) && BlindsPaid(Prepared(r), d) >= 0 &&
      BlindsPaid(Prepared(r), d) == Min(SmallBlind, r[Next(d, |r|)].chips) + Min(BigBlind, r[Next(Next(d, |r|), |r|)].chips) &&
      SumChips(ps) + BlindsPaid(Prepared(r), d) == SumChips(r) &&
      |ActiveIndices(ps)| == FundedCount(r) && HasActive(ps)
  {
    OpenedCount(r, d);
    var bl := Blinded(Prepared(r), d);
    OpenedBlindsChips(r, d);
    OpenedBlindsStacks(r, d);
    WithHoleCardsTotals(bl, s);
    CountedActive(WithHoleCards(bl, s));
  }
}
