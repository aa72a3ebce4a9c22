/**
 * The table engine: one room's game state and the operations that change it
 * step by step — seating, starting a hand, blinds, betting actions, closing
 * a betting round, revealing community cards, moving the turn, settlement,
 * removing a seat, and the mid-hand disconnect/reconnect updates.
 */
module Table {
  import opened Wrappers
  import opened Cards
  import opened Seats
  import opened Settlement
  import opened Opening

  datatype Stage = Waiting | Preflop | Flop | Turn | River | Showdown

  /** The stage a closed betting round moves to; any other stage stays put. */
  function NextStageOf(s: Stage): Stage {
    match s
    case Preflop => Flop
    case Flop => Turn
    case Turn => River
    case River => Showdown
    case _ => s
  }

  /** Community cards on the table at each stage. */
  function BoardSize(s: Stage): nat {
    match s
    case Waiting => 0
    case Preflop => 0
    case Flop => 3
    case Turn => 4
    case River => 5
    case Showdown => 5
  }

  /** Fewest cards left in the deck at each stage of a hand (52 less two per seat and the reveals). */
  function DeckFloor(s: Stage): nat {
    match s
    case Preflop => DeckSize - 2 * MaxPlayers
    case Flop => DeckSize - 2 * MaxPlayers - 4
    case Turn => DeckSize - 2 * MaxPlayers - 6
    case River => DeckSize - 2 * MaxPlayers - 8
    case _ => 0
  }

  /** A client's action message; any other string is `Other`. */
  datatype Action = Fold | Check | Call | Raise | Other

  /** The result of a kick request: success, or why it was refused. */
  datatype KickOutcome = Kicked | NoSuchPlayer | NotHost | SelfKick

  /**
   * What a check or call pays: the gap to the bet to match, capped by the
   * stack. Afterwards the seat has matched the bet or has nothing left.
   */
  function CallAmount(minBet: int, bet: int, chips: int): (pay: int)
    requires chips >= 0
    ensures 0 <= pay <= chips
    ensures minBet - bet <= 0 ==> pay == 0
    ensures minBet - bet > 0 ==> bet + pay <= minBet && (bet + pay == minBet || pay == chips)
  {
    if minBet - bet > 0 then Min(minBet - bet, chips) else 0
  }

  /** The kick checks, in the order the source makes them. */
  function KickVerdict(ps: seq<Seat>, hostId: Option<Id>, kickerId: Id, targetId: Id): KickOutcome
  {
    if IndexOf(ps, kickerId) == -1 || IndexOf(ps, targetId) == -1 then NoSuchPlayer
    else if hostId != Some(kickerId) then NotHost
    else if kickerId == targetId then SelfKick
    else Kicked
  }

  lemma MulStep(j: nat, amount: nat)
    ensures (j + 1) * amount == j * amount + amount
  {
  }

  // ------------------------------------------------ the hand as one value

  /**
   * The fields of a table that betting and the round-close rule read or
   * change, as one value: the seats, the pot, the bet to match, the stage,
   * the deck, the community cards, the seat on turn, the seats that have
   * acted this round, the last aggressor and the betting round.
   */
  datatype Hand = Hand(
    players: seq<Seat>,
    pot: int,
    minBet: int,
    stage: Stage,
    deck: seq<Card>,
    board: seq<Card>,
    turn: nat,
    acted: seq<nat>,
    aggressor: int,
    round: nat)

  /** The chips of a hand: every stack plus the pot. */
  function HandChips(h: Hand): int {
    SumChips(h.players) + h.pot
  }

  /**
   * The round-close rule of `checkRoundEnd`: every active seat has acted
   * this round and has matched the bet or is all-in.
   */
  predicate ClosedRound(ps: seq<Seat>, acted: seq<nat>, minBet: int) {
    forall i :: 0 <= i < |ps| && ps[i].status == Active ==>
      i in acted && (ps[i].currentBet == minBet || ps[i].chips == 0)
  }

  /**
   * The action branches of `handleAction` for seat f: fold, check/call, or
   * raise by one big blind; any other action changes nothing. Only seat f,
   * the pot, the bet to match and the last aggressor can change, and no chip
   * is created or lost.
   */
  function ActionApplied(h: Hand, f: nat, action: Action): (r: Hand)
    requires f < |h.players| && h.players[f].chips >= 0
    ensures |r.players| == |h.players| && HandChips(r) == HandChips(h) && r.pot >= h.pot
    ensures r == h.(players := r.players, pot := r.pot, minBet := r.minBet, aggressor := r.aggressor)
    ensures forall i :: 0 <= i < |h.players| && i != f ==> r.players[i] == h.players[i]
    ensures action == Fold ==> r.players[f].status == Folded
    ensures action != Fold ==> r.players[f].status == h.players[f].status
    ensures StacksOk(h.players) ==> StacksOk(r.players)
    ensures StacksOk(h.players) && h.minBet >= 0 ==> r.minBet >= 0
  {
    var p := h.players[f];
    match action
    case Fold =>
      var q := p.(status := Folded, currentBet := 0);
      SumChipsUpdate(h.players, f, q);
      h.(players := h.players[f := q])
    case Raise =>
      if p.chips >= BigBlind then
        var q := p.(chips := p.chips - BigBlind, currentBet := p.currentBet + BigBlind);
        SumChipsUpdate(h.players, f, q);
        h.(players := h.players[f := q], pot := h.pot + BigBlind, minBet := q.currentBet, aggressor := h.turn)
      else h
    case Other => h
    case _ =>
      var pay := CallAmount(h.minBet, p.currentBet, p.chips);
      var q := p.(chips := p.chips - pay, currentBet := p.currentBet + pay);
      SumChipsUpdate(h.players, f, q);
      h.(players := h.players[f := q], pot := h.pot + pay)
  }

  /**
   * `handleAction` past its guard and before the round-close rule: the
   * action, then the seat on turn is recorded as having acted, once.
   */
  function ActionTaken(h: Hand, f: nat, action: Action): (r: Hand)
    requires f < |h.players| && h.players[f].chips >= 0
    ensures r == ActionApplied(h, f, action).(acted := r.acted)
    ensures forall i :: i in r.acted <==> i in h.acted || i == h.turn
  {
    ActionApplied(h, f, action).(acted := if h.turn in h.acted then h.acted else h.acted + [h.turn])
  }

  /**
   * The reveal of `nextStage` before the river: from preflop one card is
   * burned and the next three go to the board in the order they are popped;
   * from flop and turn one is burned and one revealed; from waiting and
   * showdown nothing is revealed. Nothing but the stage, deck and board changes.
   */
  function Revealed(h: Hand): (r: Hand)
    requires h.stage != River && |h.deck| >= DeckFloor(h.stage)
    ensures r == h.(stage := r.stage, deck := r.deck, board := r.board)
    ensures r.stage == NextStageOf(h.stage)
  {
    var n := |h.deck|;
    match h.stage
    case Preflop => h.(stage := Flop, deck := h.deck[..n - 4], board := h.board + [h.deck[n - 2], h.deck[n - 3], h.deck[n - 4]])
    case Flop => h.(stage := Turn, deck := h.deck[..n - 2], board := h.board + [h.deck[n - 2]])
    case Turn => h.(stage := River, deck := h.deck[..n - 2], board := h.board + [h.deck[n - 2]])
    case _ => h
  }

  /**
   * `nextStage` before the river, after its resets: the reveal, then the turn
   * goes to the first active seat after the dealer and, outside showdown,
   * moves on once more as `nextTurn` does.
   */
  function StreetOpened(h: Hand, dealer: nat): (r: Hand)
    requires h.stage != River && |h.deck| >= DeckFloor(h.stage) && |h.players| > 0
    ensures r.players == h.players && r.pot == h.pot && r.stage == NextStageOf(h.stage)
    ensures HasActive(h.players) ==> ActiveAt(h.players, r.turn)
  {
    var v := Revealed(h);
    var first := SeekFrom(h.players, Next(dealer, |h.players|));
    SeekFromActive(h.players, Next(dealer, |h.players|));
    NextTurnFromSpec(h.players, first);
    v.(turn := if v.stage == Showdown then first else NextTurnFrom(h.players, first))
  }

  /** The resets at the top of `nextStage`. */
  function RoundCleared(h: Hand): Hand {
    h.(players := WithoutBets(h.players), minBet := BigBlind, acted := [], aggressor := -1, round := h.round + 1)
  }

  /** The river branch of `nextStage`: showdown, every winner paid the floor share, the pot emptied. */
  function ShowdownPaid(h: Hand, rank: Evaluator): Hand
    requires h.pot >= 0
  {
    var w := Winners(h.players, h.board, rank);
    h.(stage := Showdown, players := PaidOut(h.players, w, Payout(h.pot, |w|)), pot := 0)
  }

  /** `nextStage`: the resets, then the showdown from the river or the next street otherwise. */
  function StageAdvanced(h: Hand, dealer: nat, rank: Evaluator): Hand
    requires |h.players| > 0 && h.pot >= 0 && (h.stage != River ==> |h.deck| >= DeckFloor(h.stage))
  {
    var c := RoundCleared(h);
    if h.stage == River then ShowdownPaid(c, rank) else StreetOpened(c, dealer)
  }

  /** `nextTurn`: outside showdown the turn moves to the nearest active seat after it. */
  function TurnPassed(h: Hand): Hand
    requires |h.players| > 0
  {
    if h.stage == Showdown then h else h.(turn := NextTurnFrom(h.players, h.turn))
  }

  /** `checkRoundEnd` past its single-winner test: advance the stage if the round is closed, else the turn. */
  function PlayContinued(h: Hand, dealer: nat, rank: Evaluator): Hand
    requires |h.players| > 0 && h.pot >= 0 && (h.stage != River ==> |h.deck| >= DeckFloor(h.stage))
  {
    if ClosedRound(h.players, h.acted, h.minBet) then StageAdvanced(h, dealer, rank) else TurnPassed(h)
  }

  /**
   * `checkRoundEnd`, with the pot emptied after the single-winner payout (see
   * the finding): one active seat left takes the pot; otherwise the round
   * closes or the turn moves on.
   */
  function RoundEnded(h: Hand, dealer: nat, rank: Evaluator): Hand
    requires |h.players| > 0 && h.pot >= 0 && (h.stage != River ==> |h.deck| >= DeckFloor(h.stage))
  {
    ActiveIndicesSpec(h.players);
    var active := ActiveIndices(h.players);
    if |active| == 1 then h.(players := TakePot(h.players, active[0], h.pot), pot := 0)
    else PlayContinued(h, dealer, rank)
  }

  /**
   * The reveal only moves cards: the deck loses cards from its end (the burn
   * and the reveal), the board gains exactly the revealed ones, each taken off
   * the deck, and a deck of distinct cards none of which is on the board
   * stays so after the reveal.
   */
  lemma RevealedMovesCards(h: Hand)
    requires h.stage != River && |h.deck| >= DeckFloor(h.stage)
    ensures var r := Revealed(h);
      r.deck <= h.deck && h.board <= r.board &&
      |r.board| - |h.board| == BoardSize(r.stage) - BoardSize(h.stage) &&
      |h.deck| - |r.deck| == (if h.stage == Waiting || h.stage == Showdown then 0 else |r.board| - |h.board| + 1)
    ensures var r := Revealed(h);
      forall k :: |h.board| <= k < |r.board| ==> r.board[k] in h.deck[|r.deck|..]
    ensures var r := Revealed(h);
      Distinct(h.deck) && (forall c :: c in h.deck ==> c !in h.board) ==>
        Distinct(r.deck) && forall c :: c in r.deck ==> c !in r.board
  {
    var r := Revealed(h);
    var n := |h.deck|;
    assert r.deck == h.deck[..|r.deck|];
    if Distinct(h.deck) && (forall c :: c in h.deck ==> c !in h.board) {
      DistinctPrefix(h.deck, |r.deck|);
      forall c | c in r.deck
        ensures c !in r.board
      {
        var j :| 0 <= j < |r.deck| && r.deck[j] == c;
        assert h.deck[j] == c;
        forall k | |r.deck| <= k < n
          ensures h.deck[k] != c
        {
        }
      }
    }
  }

  /**
   * `nextStage` as a value: the stage moves on, the round's bets and actions
   * are cleared and the seats keep everything but their bets and stacks;
   * before the river no chip moves.
   */
  lemma StageAdvancedOutcome(h: Hand, dealer: nat, rank: Evaluator)
    requires |h.players| > 0 && h.pot >= 0 && (h.stage != River ==> |h.deck| >= DeckFloor(h.stage))
    ensures var r := StageAdvanced(h, dealer, rank);
      r.stage == NextStageOf(h.stage) && r.acted == [] && r.minBet == BigBlind &&
      r.aggressor == -1 && r.round == h.round + 1 && SameSeats(r.players, h.players)
    ensures h.stage != River ==> HandChips(StageAdvanced(h, dealer, rank)) == HandChips(h)
    ensures var r := StageAdvanced(h, dealer, rank);
      forall i :: 0 <= i < |r.players| ==> r.players[i].currentBet == 0
  {
    var c := RoundCleared(h);
    SumChipsSameStacks(c.players, h.players);
    if h.stage == River {
      var w := Winners(c.players, c.board, rank);
      PaidOutKeeps(c.players, w, Payout(c.pot, |w|));
    }
  }

  /** The round-close rule with one active seat left: it takes the whole pot and nothing else moves. */
  lemma RoundEndedLone(h: Hand, dealer: nat, rank: Evaluator)
    requires |h.players| > 0 && h.pot >= 0 && (h.stage != River ==> |h.deck| >= DeckFloor(h.stage))
    ensures var a := ActiveIndices(h.players); var r := RoundEnded(h, dealer, rank);
      |a| == 1 ==>
        a[0] < |h.players| && h.players[a[0]].status == Active &&
        r == h.(players := r.players, pot := 0) && HandChips(r) == HandChips(h) &&
        r.players[a[0]].chips == h.players[a[0]].chips + h.pot &&
        forall i :: 0 <= i < |h.players| && i != a[0] ==> r.players[i] == h.players[i]
  {
    ActiveIndicesSpec(h.players);
    var a := ActiveIndices(h.players);
    if |a| == 1 {
      assert a[0] in a;
    }
  }

  /**
   * The round-close rule with a closed round and other than one active seat:
   * the stage advances, and before the river no chip moves.
   */
  lemma RoundEndedClosed(h: Hand, dealer: nat, rank: Evaluator)
    requires |h.players| > 0 && h.pot >= 0 && (h.stage != River ==> |h.deck| >= DeckFloor(h.stage))
    ensures var r := RoundEnded(h, dealer, rank);
      |ActiveIndices(h.players)| != 1 && ClosedRound(h.players, h.acted, h.minBet) ==>
        r.stage == NextStageOf(h.stage) && r.acted == [] && r.minBet == BigBlind &&
        r.aggressor == -1 && r.round == h.round + 1 && SameSeats(r.players, h.players) &&
        (h.stage != River ==> HandChips(r) == HandChips(h))
  {
    if |ActiveIndices(h.players)| != 1 && ClosedRound(h.players, h.acted, h.minBet) {
      StageAdvancedOutcome(h, dealer, rank);
    }
  }

  /**
   * The round-close rule with an open round and other than one active seat:
   * only the turn moves, outside showdown to an active seat.
   */
  lemma RoundEndedOpen(h: Hand, dealer: nat, rank: Evaluator)
    requires |h.players| > 0 && h.pot >= 0 && (h.stage != River ==> |h.deck| >= DeckFloor(h.stage))
    ensures var r := RoundEnded(h, dealer, rank);
      |ActiveIndices(h.players)| != 1 && !ClosedRound(h.players, h.acted, h.minBet) ==>
        r == h.(turn := r.turn) && (h.stage != Showdown && HasActive(h.players) ==> ActiveAt(h.players, r.turn))
  {
    if h.stage != Showdown && HasActive(h.players) {
      NextTurnFromSpec(h.players, h.turn);
    }
  }

  class PokerGame {
    var roomId: string
    var players: seq<Seat>
    var hostId: Option<Id>
    var deck: seq<Card>
    var communityCards: seq<Card>
    var pot: int
    var dealerIdx: nat
    var currentTurnIdx: nat
    var stage: Stage
    var minBet: int
    var lastAggressorIdx: int
    var bettingRound: nat
    var playersActed: seq<nat>

    /** The table invariant: the seats and chips are in order and so are the cards. */
    ghost predicate Valid()
      reads this`players, this`pot, this`minBet, this`communityCards, this`stage, this`deck
    {
      ChipsOk() && CardsOk()
    }

    /** At most ten seats, no negative stack or bet, a non-negative pot and bet to match. */
    ghost predicate ChipsOk()
      reads this`players, this`pot, this`minBet
    {
      |players| <= MaxPlayers && StacksOk(players) && pot >= 0 && minBet >= 0
    }

    /**
     * The community cards of the current stage, enough cards left for the
     * rest of the hand, and no card twice in the deck.
     */
    ghost predicate CardsOk()
      reads this`communityCards, this`stage, this`deck
    {
      |communityCards| == BoardSize(stage) && |deck| >= DeckFloor(stage) && Distinct(deck)
    }

    /** The chips in play: every stack plus the pot. */
    function Total(): int
      reads this`players, this`pot
    {
      SumChips(players) + pot
    }

    /** The guard of `handleAction`: the caller's first seat is on turn and active. */
    predicate Authorized(id: Id)
      reads this`players, this`currentTurnIdx
    {
      var f := IndexOf(players, id);
      f >= 0 && currentTurnIdx < |players| && players[currentTurnIdx].id == id && players[f].status == Active
    }

    /**
     * The round-close rule of `checkRoundEnd`: every active seat has acted
     * this round and has matched the bet or is all-in.
     */
    predicate RoundClosed()
      reads this`players, this`playersActed, this`minBet
    {
      ClosedRound(players, playersActed, minBet)
    }

    /** The fields betting and the round-close rule work on, as one value. */
    function Snapshot(): Hand
      reads this`players, this`pot, this`minBet, this`stage, this`deck, this`communityCards,
        this`currentTurnIdx, this`playersActed, this`lastAggressorIdx, this`bettingRound
    {
      Hand(players, pot, minBet, stage, deck, communityCards, currentTurnIdx, playersActed, lastAggressorIdx, bettingRound)
    }

    /**
     * `checkRoundEnd` with no active seat calls `nextStage`, whose scan for an
     * active seat never ends unless the hand is on the river.
     */
    predicate RoundEndSafe()
      reads this`players, this`stage
    {
      |players| > 0 && (|ActiveIndices(players)| == 0 ==> stage == River)
    }

    /** The one action that can leave no active seat is the last active seat folding. */
    predicate ActionSafe(id: Id, action: Action)
      reads this`players, this`currentTurnIdx, this`stage
    {
      Authorized(id) && action == Fold && |ActiveIndices(players)| == 1 ==> stage == River
    }

    /** Kicking the seat on turn rescans for an active seat, which must exist. */
    predicate KickSafe(kickerId: Id, targetId: Id)
      reads this`players, this`hostId, this`currentTurnIdx, this`stage
    {
      var t := IndexOf(players, targetId);
      KickVerdict(players, hostId, kickerId, targetId) == Kicked && t == currentTurnIdx && stage != Showdown ==>
        HasActive(players[..t] + players[t + 1..])
    }

    /** Force-folding the seat on turn must not leave the round-close check without an active seat. */
    predicate DisconnectSafe(id: Id)
      reads this`players, this`currentTurnIdx, this`stage
    {
      var i := IndexOf(players, id);
      i >= 0 && i == currentTurnIdx && stage != Showdown && stage != River ==>
        HasActive(players[i := players[i].(status := Folded)])
    }

    /**
     * The state `startRound` leaves when it opens a hand from the seats `r`
     * that survived the sweep, the dealer index `dealer0` and the shuffle `perm`.
     */
    ghost predicate OpenedFrom(r: seq<Seat>, dealer0: nat, perm: seq<nat>)
      requires IsPermutation(perm, DeckSize)
      reads this
    {
      var n := |r|;
      var shuffled := Shuffle(OrderedDeck(), perm);
      var funded := FundedCount(r);
      n >= 2 && 2 * funded <= DeckSize &&
      dealerIdx == Next(dealer0, n) &&
      var blinded := Blinded(Prepared(r), dealerIdx);
      |ActiveIndices(blinded)| == funded &&
      HandReset() &&
      players == WithHoleCards(blinded, shuffled) &&
      pot == BlindsPaid(Prepared(r), dealerIdx) &&
      deck == shuffled[..DeckSize - 2 * funded] &&
      currentTurnIdx == NextTurnFrom(players, Next(Next(Next(dealerIdx, n), n), n))
    }

    /** The betting state of a freshly opened hand: preflop, no board, one big blind to match, nobody acted. */
    predicate HandReset()
      reads this`stage, this`communityCards, this`minBet, this`bettingRound, this`lastAggressorIdx, this`playersActed
    {
      stage == Preflop && communityCards == [] && minBet == BigBlind && bettingRound == 0 &&
      lastAggressorIdx == -1 && playersActed == []
    }

    constructor (roomId: string)
      ensures Valid() && this.roomId == roomId
      ensures players == [] && hostId == None && deck == [] && communityCards == [] && pot == 0
      ensures dealerIdx == 0 && currentTurnIdx == 0 && stage == Waiting && minBet == BigBlind
      ensures lastAggressorIdx == -1 && bettingRound == 0 && playersActed == []
    {
      this.roomId := roomId;
      players := [];
      hostId := None;
      deck := [];
      communityCards := [];
      pot := 0;
      dealerIdx := 0;
      currentTurnIdx := 0;
      stage := Waiting;
      minBet := BigBlind;
      lastAggressorIdx := -1;
      bettingRound := 0;
      playersActed := [];
    }

    // ------------------------------------------------------------ seating

    /**
     * `addPlayer`: refuse when the table is full; otherwise append an active
     * seat with the starting stack (the first seat becomes host) and, when a
     * waiting table now has two seats, start the first hand.
     */
    method AddPlayer(id: Id, name: string, now: int, perm: seq<nat>) returns (ok: bool)
      requires Valid() && IsPermutation(perm, DeckSize)
      modifies this
      ensures Valid()
      ensures ok <==> old(|players|) < MaxPlayers
      ensures !ok ==> unchanged(this)
      ensures ok ==> hostId == (if old(|players|) == 0 then Some(id) else old(hostId)) && roomId == old(roomId)
      ensures ok && !(old(|players|) >= 1 && old(stage) == Waiting) ==>
        players == old(players) + [NewSeat(id, name, old(|players|), now, old(|players|) == 0)] &&
        stage == old(stage) && pot == old(pot) && deck == old(deck) && communityCards == old(communityCards) &&
        currentTurnIdx == old(currentTurnIdx) && dealerIdx == old(dealerIdx) && minBet == old(minBet) &&
        playersActed == old(playersActed) && lastAggressorIdx == old(lastAggressorIdx) &&
        bettingRound == old(bettingRound)
      ensures ok && old(|players|) >= 1 && old(stage) == Waiting ==>
        var seated := old(players) + [NewSeat(id, name, old(|players|), now, old(|players|) == 0)];
        if FundedCount(Retained(seated, now)) >= 2 then OpenedFrom(Retained(seated, now), old(dealerIdx), perm)
        else
          players == Retained(seated, now) && stage == Waiting && pot == old(pot) && deck == old(deck) &&
          communityCards == old(communityCards) && dealerIdx == old(dealerIdx) &&
          currentTurnIdx == old(currentTurnIdx) && minBet == old(minBet) && playersActed == old(playersActed) &&
          lastAggressorIdx == old(lastAggressorIdx) && bettingRound == old(bettingRound)
    {
      if |players| >= MaxPlayers {
        return false;
      }
      var isHost := |players| == 0;
      if isHost {
        hostId := Some(id);
      }
      players := players + [NewSeat(id, name, |players|, now, isHost)];
      // broadcastState is a notification only
      if |players| >= 2 && stage == Waiting {
        StartRound(now, perm);
      }
      return true;
    }

    /** `cleanupDisconnectedPlayers`: drop the seats disconnected for longer than the window. */
    method CleanupDisconnectedPlayers(now: int)
      requires Valid()
      modifies this`players
      ensures Valid()
      ensures players == Retained(old(players), now)
      ensures Total() == old(Total()) - SumChips(Abandoned(old(players), now))
    {
      RetainedSpec(players, now);
      RetainedStacksOk(players, now);
      players := Retained(players, now);
    }

    /**
     * `createDeck`: build the 52 cards with the nested suit/value loops, then
     * shuffle. The random shuffle is the given permutation of positions.
     */
    method CreateDeck(perm: seq<nat>)
      requires IsPermutation(perm, DeckSize)
      modifies this`deck
      ensures deck == Shuffle(OrderedDeck(), perm)
      ensures |deck| == DeckSize && Distinct(deck)
      ensures forall k :: 0 <= k < |deck| ==> IsStandard(deck[k])
      ensures multiset(deck) == multiset(OrderedDeck()) && forall c :: IsStandard(c) ==> c in deck
    {
      var built := BuildDeck();
      assert built == OrderedDeck();
      BuiltDeckIsFull(built);
      ShufflePreservesDistinct(built, perm);
      ShuffleKeepsCards(built, perm);
      deck := Shuffle(built, perm);
      forall c | IsStandard(c)
        ensures c in deck
      {
        assert c in multiset(built);
      }
    }

    // ---------------------------------------------------------- hand set-up

    /**
     * `startRound`: sweep stale disconnected seats; with two funded seats,
     * reset the hand, rebuild the deck, ready the seats, move the dealer,
     * post the blinds, deal two hole cards to each active seat and give the
     * turn to the first active seat after the one following the big blind.
     */
    method StartRound(now: int, perm: seq<nat>)
      requires Valid() && IsPermutation(perm, DeckSize)
      modifies this
      ensures Valid()
      ensures hostId == old(hostId) && roomId == old(roomId)
      ensures FundedCount(Retained(old(players), now)) < 2 ==>
        players == Retained(old(players), now) && stage == old(stage) && pot == old(pot) &&
        deck == old(deck) && communityCards == old(communityCards) && dealerIdx == old(dealerIdx) &&
        currentTurnIdx == old(currentTurnIdx) && minBet == old(minBet) && playersActed == old(playersActed) &&
        lastAggressorIdx == old(lastAggressorIdx) && bettingRound == old(bettingRound)
      ensures FundedCount(Retained(old(players), now)) >= 2 ==>
        OpenedFrom(Retained(old(players), now), old(dealerIdx), perm) &&
        Total() == SumChips(Retained(old(players), now)) && ActiveAt(players, currentTurnIdx)
    {
      CleanupDisconnectedPlayers(now);
      if FundedCount(players) < 2 {
        return;
      }
      OpenHand(perm);
    }

    /** The part of `startRound` after the check for two funded seats. */
    method OpenHand(perm: seq<nat>)
      requires Valid() && IsPermutation(perm, DeckSize) && FundedCount(players) >= 2
      modifies this`stage, this`communityCards, this`pot, this`minBet, this`bettingRound,
        this`lastAggressorIdx, this`playersActed, this`deck, this`players, this`dealerIdx, this`currentTurnIdx
      ensures Valid()
      ensures OpenedFrom(old(players), old(dealerIdx), perm)
      ensures Total() == old(SumChips(players)) && ActiveAt(players, currentTurnIdx)
    {
      ResetAndReady(perm);
      DealAndOpenTurn();
    }

    /** The resets of `startRound` with a fresh shuffled deck, then the seats readied and blinded. */
    method ResetAndReady(perm: seq<nat>)
      requires IsPermutation(perm, DeckSize) && StacksOk(players) && FundedCount(players) >= 2
      modifies this`stage, this`communityCards, this`pot, this`minBet, this`bettingRound,
        this`lastAggressorIdx, this`playersActed, this`deck, this`players, this`dealerIdx
      ensures HandReset()
      ensures deck == Shuffle(OrderedDeck(), perm) && |deck| == DeckSize && Distinct(deck)
      ensures dealerIdx == Next(old(dealerIdx), |old(players)|)
      ensures players == Blinded(Prepared(old(players)), dealerIdx)
      ensures |ActiveIndices(players)| == FundedCount(old(players)) <= |players| == |old(players)|
      ensures pot == BlindsPaid(Prepared(old(players)), dealerIdx)
      ensures SumChips(players) + pot == SumChips(old(players)) && StacksOk(players) && pot >= 0
    {
      ResetHand(perm);
      ReadySeats();
    }

    /** The seats of `startRound`: sweep them, move the button, post both blinds. */
    method ReadySeats()
      requires pot == 0 && StacksOk(players) && FundedCount(players) >= 2
      modifies this`players, this`dealerIdx, this`pot
      ensures dealerIdx == Next(old(dealerIdx), |old(players)|)
      ensures players == Blinded(Prepared(old(players)), dealerIdx)
      ensures |ActiveIndices(players)| == FundedCount(old(players)) <= |players| == |old(players)|
      ensures pot == BlindsPaid(Prepared(old(players)), dealerIdx)
      ensures SumChips(players) + pot == SumChips(old(players)) && StacksOk(players) && pot >= 0
    {
      PrepareSeats();
      // every seat with chips is now active, so the source's second "fewer
      // than two seats in play" return cannot fire and is not modelled
      PostBlinds();
    }

    /** The last steps of `startRound`: two hole cards per active seat, then the first turn. */
    method DealAndOpenTurn()
      requires stage == Preflop && 2 <= |players| && dealerIdx < |players| && StacksOk(players)
      requires 0 < |ActiveIndices(players)| && 2 * |ActiveIndices(players)| <= |deck| && Distinct(deck)
      modifies this`players, this`deck, this`currentTurnIdx
      ensures players == WithHoleCards(old(players), old(deck))
      ensures deck == old(deck)[..|old(deck)| - 2 * |ActiveIndices(old(players))|]
      ensures |players| == old(|players|) && SumChips(players) == old(SumChips(players))
      ensures StacksOk(players) && Distinct(deck)
      ensures currentTurnIdx == NextTurnFrom(players, Next(Next(Next(dealerIdx, |players|), |players|), |players|))
      ensures ActiveAt(players, currentTurnIdx)
    {
      DealHoleCards();
      CountedActive(players);
      var n := |players|;
      var bb := Next(Next(dealerIdx, n), n);
      OpenTurn(Next(bb, n));
    }

    /** The resets at the top of `startRound`, and a fresh shuffled deck. */
    method ResetHand(perm: seq<nat>)
      requires IsPermutation(perm, DeckSize)
      modifies this`stage, this`communityCards, this`pot, this`minBet, this`bettingRound,
        this`lastAggressorIdx, this`playersActed, this`deck
      ensures HandReset() && pot == 0
      ensures deck == Shuffle(OrderedDeck(), perm) && |deck| == DeckSize && Distinct(deck)
    {
      stage := Preflop;
      communityCards := [];
      pot := 0;
      minBet := BigBlind;
      bettingRound := 0;
      lastAggressorIdx := -1;
      playersActed := [];
      CreateDeck(perm);
    }

    /**
     * The blind step of `startRound`: the dealer moves one seat on; the next
     * two seats post the small and the big blind.
     */
    method PostBlinds()
      requires |players| >= 2 && StacksOk(players) && pot >= 0
      modifies this`dealerIdx, this`players, this`pot
      ensures dealerIdx == Next(old(dealerIdx), old(|players|))
      ensures players == Blinded(old(players), dealerIdx)
      ensures ActiveIndices(players) == ActiveIndices(old(players))
      ensures pot == old(pot) + BlindsPaid(old(players), dealerIdx)
      ensures StacksOk(players) && pot >= 0 && Total() == old(Total())
    {
      ghost var before := players;
      var n := |players|;
      dealerIdx := Next(dealerIdx, n);
      var sb := Next(dealerIdx, n);
      var bb := Next(sb, n);
      PostBlind(sb, SmallBlind, SmallBlindPost);
      PostBlind(bb, BigBlind, BigBlindPost);
      BlindedStatus(before, dealerIdx);
    }

    /** The last step of `startRound`: the turn starts after the big blind and moves on as `nextTurn` does. */
    method OpenTurn(start: nat)
      requires stage == Preflop && start < |players| && HasActive(players)
      modifies this`currentTurnIdx
      ensures currentTurnIdx == NextTurnFrom(players, start) && ActiveAt(players, currentTurnIdx)
    {
      currentTurnIdx := start;
      // broadcastState is a notification only
      NextTurn();
    }

    /** The `forEach` of `startRound` that readies every seat for the hand. */
    method PrepareSeats()
      modifies this`players
      ensures players == Prepared(old(players))
      ensures |ActiveIndices(players)| == FundedCount(old(players)) <= |players|
      ensures SumChips(players) == SumChips(old(players))
      ensures StacksOk(old(players)) ==> StacksOk(players)
    {
      ghost var before := players;
      for i := 0 to |players|
        invariant |players| == |before|
        invariant forall j :: 0 <= j < i ==> players[j] == PrepareSeat(before[j])
        invariant forall j :: i <= j < |players| ==> players[j] == before[j]
      {
        players := players[i := PrepareSeat(players[i])];
      }
      assert players == Prepared(before);
      PreparedActive(before);
      PreparedChips(before);
      if StacksOk(before) {
        PreparedStacks(before);
      }
    }

    /** `postBlind`: a seat index past the end changes nothing. */
    method PostBlind(idx: nat, amount: nat, kind: BlindKind)
      requires StacksOk(players) && pot >= 0
      modifies this`players, this`pot
      ensures StacksOk(players) && pot >= 0
      ensures |players| == old(|players|)
      ensures idx >= |players| ==> players == old(players) && pot == old(pot)
      ensures idx < |players| ==>
        players == old(players)[idx := PostedBlind(old(players)[idx], amount, kind)] &&
        pot == old(pot) + Min(amount, old(players)[idx].chips)
      ensures Total() == old(Total())
    {
      if idx >= |players| {
        return;
      }
      var p := players[idx];
      var paid := if p.chips >= amount then amount else p.chips;
      SumChipsUpdate(players, idx, PostedBlind(p, amount, kind));
      players := players[idx := PostedBlind(p, amount, kind)];
      pot := pot + paid;
    }

    /** One pass of the dealing loop: every active seat, in order, takes the deck's last card. */
    method DealRound()
      requires |ActiveIndices(players)| <= |deck|
      modifies this`players, this`deck
      ensures |players| == old(|players|)
      ensures deck == old(deck)[..|old(deck)| - |ActiveIndices(old(players))|]
      ensures forall i :: 0 <= i < |players| ==>
        players[i] == if old(players)[i].status == Active
          then old(players)[i].(hand := old(players)[i].hand + [DealtCard(old(players), old(deck), 0, i)])
          else old(players)[i]
    {
      ghost var ps := players;
      ghost var d := deck;
      var dealt := 0;
      for j := 0 to |players|
        invariant |players| == |ps|
        invariant dealt == |ActiveUpTo(ps, j)| && dealt <= |ActiveIndices(ps)|
        invariant deck == d[..|d| - dealt]
        invariant forall i :: 0 <= i < j ==>
          players[i] == if ps[i].status == Active
            then ps[i].(hand := ps[i].hand + [DealtCard(ps, d, 0, i)])
            else ps[i]
        invariant forall i :: j <= i < |ps| ==> players[i] == ps[i]
      {
        ActiveUpToMono(ps, j, |ps|);
        if players[j].status == Active {
          var card := deck[|deck| - 1];
          deck := deck[..|deck| - 1];
          players := players[j := players[j].(hand := players[j].hand + [card])];
          dealt := dealt + 1;
        }
      }
    }

    /** The two dealing passes of `startRound`: two hole cards per active seat. */
    method DealHoleCards()
      requires 2 * |ActiveIndices(players)| <= |deck|
      modifies this`players, this`deck
      ensures players == WithHoleCards(old(players), old(deck))
      ensures deck == old(deck)[..|old(deck)| - 2 * |ActiveIndices(old(players))|]
      ensures ActiveIndices(players) == ActiveIndices(old(players))
      ensures SumChips(players) == SumChips(old(players))
      ensures StacksOk(old(players)) ==> StacksOk(players)
      ensures Distinct(old(deck)) ==> Distinct(deck)
    {
      ghost var ps, d := players, deck;
      DealTwoRounds();
      WithHoleCardsTotals(ps, d);
      if Distinct(d) {
        DistinctPrefix(d, |d| - 2 * |ActiveIndices(ps)|);
      }
    }

    /** The two passes themselves: each pops one card per active seat, in seat order. */
    method DealTwoRounds()
      requires 2 * |ActiveIndices(players)| <= |deck|
      modifies this`players, this`deck
      ensures players == WithHoleCards(old(players), old(deck))
      ensures deck == old(deck)[..|old(deck)| - 2 * |ActiveIndices(old(players))|]
    {
      ghost var ps := players;
      ghost var d := deck;
      ghost var a := |ActiveIndices(ps)|;
      for round := 0 to 2
        invariant |players| == |ps|
        invariant forall i :: 0 <= i < |ps| ==> players[i] == ps[i].(hand := players[i].hand)
        invariant deck == d[..|d| - round * a]
        invariant forall i :: 0 <= i < |ps| && ps[i].status != Active ==> players[i] == ps[i]
        invariant forall i :: 0 <= i < |ps| && ps[i].status == Active ==>
          players[i].hand == ps[i].hand +
            (if round == 0 then []
             else if round == 1 then [HoleCard(ps, d, 0, i)]
             else [HoleCard(ps, d, 0, i), HoleCard(ps, d, 1, i)])
      {
        ghost var cur := players;
        ghost var top := deck;
        ActiveUpToSameStatus(ps, players, |ps|);
        DealRound();
        forall i | 0 <= i < |ps| && ps[i].status == Active
          ensures DealtCard(cur, top, 0, i) == HoleCard(ps, d, round, i)
        {
          PassCard(ps, d, cur, round, i);
        }
        assert (round + 1) * a == round * a + a;
      }
      assert players == WithHoleCards(ps, d);
    }

    // -------------------------------------------------------------- betting

    /**
     * `handleAction`: ignored unless the caller is on turn and active;
     * otherwise apply the action, record the seat on turn as having acted,
     * and apply the round-close rule. A turn timer firing is this call with
     * `Check` for the seat it was started for.
     */
    method HandleAction(id: Id, action: Action, rank: Evaluator)
      requires Valid() && ActionSafe(id, action)
      modifies this
      ensures !old(Authorized(id)) ==> unchanged(this)
      ensures old(Authorized(id)) ==>
        Snapshot() == RoundEnded(ActionTaken(old(Snapshot()), IndexOf(old(players), id), action), dealerIdx, rank)
      ensures Valid()
      ensures roomId == old(roomId) && hostId == old(hostId) && dealerIdx == old(dealerIdx)
      ensures Total() <= old(Total())
      ensures !(old(stage) == River && stage == Showdown) ==> Total() == old(Total())
      ensures old(Authorized(id)) ==> |players| == old(|players|)
      ensures old(Authorized(id)) && action == Fold ==> players[IndexOf(old(players), id)].status == Folded
      ensures old(Authorized(id)) && action != Fold ==>
        forall i :: 0 <= i < |players| ==> players[i].status == old(players)[i].status
      ensures old(Authorized(id)) && stage != Showdown && |ActiveIndices(players)| != 1 ==>
        ActiveAt(players, currentTurnIdx)
    {
      var f := IndexOf(players, id);
      if f < 0 || currentTurnIdx >= |players| || players[currentTurnIdx].id != id || players[f].status != Active {
        return;
      }
      // the pending turn timer is cancelled here; timers are not modelled
      Act(f, action, rank);
    }

    /**
     * `handleAction` past its guard, for the caller's seat f: apply the
     * action, record the seat on turn as having acted, apply the round-close rule.
     */
    method Act(f: nat, action: Action, rank: Evaluator)
      requires Valid() && ActiveAt(players, f)
      requires action == Fold && |ActiveIndices(players)| == 1 ==> stage == River
      modifies this`players, this`minBet, this`playersActed, this`lastAggressorIdx, this`bettingRound,
        this`stage, this`deck, this`communityCards, this`pot, this`currentTurnIdx
      ensures Valid()
      ensures Snapshot() == RoundEnded(ActionTaken(old(Snapshot()), f, action), dealerIdx, rank)
      ensures |players| == old(|players|)
      ensures action == Fold ==> players[f].status == Folded
      ensures action != Fold ==> forall i :: 0 <= i < |players| ==> players[i].status == old(players)[i].status
      ensures Total() <= old(Total())
      ensures !(old(stage) == River && stage == Showdown) ==> Total() == old(Total())
      ensures stage != Showdown && |ActiveIndices(players)| != 1 ==> ActiveAt(players, currentTurnIdx)
    {
      TakeAction(f, action);
      CheckRoundEnd(rank);
    }

    /** The part of `handleAction` before the round-close rule: the action, then the acted mark. */
    method TakeAction(f: nat, action: Action)
      requires Valid() && ActiveAt(players, f)
      requires action == Fold && |ActiveIndices(players)| == 1 ==> stage == River
      modifies this`players, this`minBet, this`playersActed, this`lastAggressorIdx, this`pot
      ensures Valid() && RoundEndSafe()
      ensures Snapshot() == ActionTaken(old(Snapshot()), f, action)
      ensures |players| == old(|players|) && Total() == old(Total())
      ensures action == Fold ==> players[f].status == Folded
      ensures action != Fold ==> forall i :: 0 <= i < |players| ==> players[i].status == old(players)[i].status
      ensures playersActed == if currentTurnIdx in old(playersActed) then old(playersActed) else old(playersActed) + [currentTurnIdx]
    {
      ghost var before := players;
      ActiveIndicesSpec(before);
      ActiveCountUpdate(before, f, before[f].(status := Folded, currentBet := 0), |before|);
      ApplyAction(f, action);
      if currentTurnIdx !in playersActed {
        playersActed := playersActed + [currentTurnIdx];
      }
      if action != Fold {
        ActiveUpToSameStatus(before, players, |players|);
      }
    }

    /**
     * The action branches of `handleAction` for an authorized seat f: fold,
     * check/call, or raise by one big blind; any other action changes nothing.
     */
    method ApplyAction(f: nat, action: Action)
      requires StacksOk(players) && pot >= 0 && minBet >= 0 && f < |players|
      modifies this`players, this`pot, this`minBet, this`lastAggressorIdx
      ensures StacksOk(players) && pot >= 0 && minBet >= 0
      ensures Total() == old(Total()) && |players| == |old(players)|
      ensures action != Fold ==> forall i :: 0 <= i < |players| ==> players[i].status == old(players)[i].status
      ensures action == Fold ==>
        players == old(players)[f := old(players)[f].(status := Folded, currentBet := 0)] &&
        pot == old(pot) && minBet == old(minBet) && lastAggressorIdx == old(lastAggressorIdx)
      ensures action == Check || action == Call ==>
        var p := old(players)[f];
        var pay := CallAmount(old(minBet), p.currentBet, p.chips);
        players == old(players)[f := p.(chips := p.chips - pay, currentBet := p.currentBet + pay)] &&
        pot == old(pot) + pay && minBet == old(minBet) && lastAggressorIdx == old(lastAggressorIdx)
      ensures action == Raise && old(players)[f].chips >= BigBlind ==>
        var p := old(players)[f];
        players == old(players)[f := p.(chips := p.chips - BigBlind, currentBet := p.currentBet + BigBlind)] &&
        pot == old(pot) + BigBlind && minBet == p.currentBet + BigBlind && lastAggressorIdx == currentTurnIdx
      ensures action == Other || (action == Raise && old(players)[f].chips < BigBlind) ==>
        players == old(players) && pot == old(pot) && minBet == old(minBet) && lastAggressorIdx == old(lastAggressorIdx)
      ensures Snapshot() == ActionApplied(old(Snapshot()), f, action)
    {
      match action {
        case Fold => FoldStep(f);
        case Check => CallStep(f);
        case Call => CallStep(f);
        case Raise => RaiseStep(f);
        case Other =>
      }
    }

    /** The fold branch of `handleAction`: the seat folds and its bet is cleared. */
    method FoldStep(f: nat)
      requires StacksOk(players) && f < |players|
      modifies this`players
      ensures StacksOk(players)
      ensures SumChips(players) == old(SumChips(players))
      ensures players == old(players)[f := old(players)[f].(status := Folded, currentBet := 0)]
      ensures Snapshot() == ActionApplied(old(Snapshot()), f, Fold)
    {
      SumChipsUpdate(players, f, players[f].(status := Folded, currentBet := 0));
      players := players[f := players[f].(status := Folded, currentBet := 0)];
    }

    /**
     * The raise branch of `handleAction`: with at least one big blind left the
     * seat adds one big blind, its bet becomes the bet to match and it becomes
     * the last aggressor; a shorter stack changes nothing.
     */
    method RaiseStep(f: nat)
      requires StacksOk(players) && pot >= 0 && minBet >= 0 && f < |players|
      modifies this`players, this`pot, this`minBet, this`lastAggressorIdx
      ensures StacksOk(players) && pot >= 0 && minBet >= 0
      ensures Total() == old(Total())
      ensures old(players)[f].chips >= BigBlind ==>
        var p := old(players)[f];
        players == old(players)[f := p.(chips := p.chips - BigBlind, currentBet := p.currentBet + BigBlind)] &&
        pot == old(pot) + BigBlind && minBet == p.currentBet + BigBlind && lastAggressorIdx == currentTurnIdx
      ensures old(players)[f].chips < BigBlind ==>
        players == old(players) && pot == old(pot) && minBet == old(minBet) && lastAggressorIdx == old(lastAggressorIdx)
      ensures Snapshot() == ActionApplied(old(Snapshot()), f, Raise)
    {
      var p := players[f];
      if p.chips >= BigBlind {
        var q := p.(chips := p.chips - BigBlind, currentBet := p.currentBet + BigBlind);
        SumChipsUpdate(players, f, q);
        players := players[f := q];
        pot := pot + BigBlind;
        minBet := q.currentBet;
        lastAggressorIdx := currentTurnIdx;
      }
    }

    /** The check/call branch of `handleAction`. */
    method CallStep(f: nat)
      requires StacksOk(players) && pot >= 0 && f < |players|
      modifies this`players, this`pot
      ensures StacksOk(players) && pot >= 0
      ensures Total() == old(Total())
      ensures var p := old(players)[f];
        var pay := CallAmount(minBet, p.currentBet, p.chips);
        players == old(players)[f := p.(chips := p.chips - pay, currentBet := p.currentBet + pay)] &&
        pot == old(pot) + pay
      ensures Snapshot() == ActionApplied(old(Snapshot()), f, Call)
      ensures Snapshot() == ActionApplied(old(Snapshot()), f, Check)
    {
      var p := players[f];
      var toCall := minBet - p.currentBet;
      var pay := 0;
      if toCall > 0 {
        pay := Min(toCall, p.chips);
      }
      var q := p.(chips := p.chips - pay, currentBet := p.currentBet + pay);
      SumChipsUpdate(players, f, q);
      players := players[f := q];
      pot := pot + pay;
    }

    /**
     * `checkRoundEnd`: with exactly one active seat, pay it the pot; else if
     * the round-close rule holds, advance the stage; else advance the turn.
     */
    method CheckRoundEnd(rank: Evaluator)
      requires Valid() && RoundEndSafe()
      modifies this`players, this`minBet, this`playersActed, this`lastAggressorIdx, this`bettingRound,
        this`stage, this`deck, this`communityCards, this`pot, this`currentTurnIdx
      ensures Valid()
      ensures Snapshot() == RoundEnded(old(Snapshot()), dealerIdx, rank)
      ensures SameSeats(players, old(players))
      ensures old(|ActiveIndices(players)|) == 1 ==>
        var w := old(ActiveIndices(players))[0];
        w < |players| &&
        players == TakePot(old(players), w, old(pot)) && pot == 0 &&
        stage == old(stage) && currentTurnIdx == old(currentTurnIdx) && minBet == old(minBet) &&
        playersActed == old(playersActed) && deck == old(deck) && communityCards == old(communityCards)
      ensures old(|ActiveIndices(players)|) != 1 && old(RoundClosed()) ==>
        stage == NextStageOf(old(stage)) && minBet == BigBlind && playersActed == [] &&
        bettingRound == old(bettingRound) + 1
      ensures old(|ActiveIndices(players)|) != 1 && !old(RoundClosed()) ==>
        players == old(players) && pot == old(pot) && stage == old(stage) && minBet == old(minBet) &&
        playersActed == old(playersActed) && deck == old(deck) && communityCards == old(communityCards) &&
        currentTurnIdx == (if stage == Showdown then old(currentTurnIdx) else NextTurnFrom(players, old(currentTurnIdx)))
      ensures Total() <= old(Total())
      ensures !(old(stage) == River && stage == Showdown) ==> Total() == old(Total())
      ensures stage != Showdown && |ActiveIndices(players)| != 1 ==> ActiveAt(players, currentTurnIdx)
    {
      var active := ActiveIndices(players);
      if |active| == 1 {
        ActiveIndicesSpec(players);
        ghost var before := players;
        SoleActive(players);
        SettleWinner(active[0]);
        ActiveUpToSameStatus(before, players, |players|);
        return;
      }
      AdvanceRound(rank);
    }

    /** `checkRoundEnd` when the hand is not won by folds: close the betting round or pass the turn. */
    method AdvanceRound(rank: Evaluator)
      requires Valid() && RoundEndSafe() && |ActiveIndices(players)| != 1
      modifies this`players, this`minBet, this`playersActed, this`lastAggressorIdx, this`bettingRound,
        this`stage, this`deck, this`communityCards, this`pot, this`currentTurnIdx
      ensures Valid()
      ensures Snapshot() == PlayContinued(old(Snapshot()), dealerIdx, rank)
      ensures SameSeats(players, old(players))
      ensures old(RoundClosed()) ==>
        stage == NextStageOf(old(stage)) && minBet == BigBlind && playersActed == [] &&
        bettingRound == old(bettingRound) + 1
      ensures !old(RoundClosed()) ==>
        players == old(players) && pot == old(pot) && stage == old(stage) && minBet == old(minBet) &&
        playersActed == old(playersActed) && deck == old(deck) && communityCards == old(communityCards) &&
        currentTurnIdx == (if stage == Showdown then old(currentTurnIdx) else NextTurnFrom(players, old(currentTurnIdx)))
      ensures Total() <= old(Total())
      ensures !(old(stage) == River && stage == Showdown) ==> Total() == old(Total())
      ensures stage != Showdown && |ActiveIndices(players)| != 1 ==> ActiveAt(players, currentTurnIdx)
    {
      ActiveIndicesSpec(players);
      ghost var before := players;
      if |ActiveIndices(players)| == 0 {
        forall i | 0 <= i < |players|
          ensures players[i].status != Active
        {
          assert !ActiveAt(players, i);
        }
      }
      if RoundClosed() {
        NextStage(rank);
        ActiveUpToSameStatus(before, players, |players|);
      } else {
        NextTurn();
        NextTurnFromSpec(players, old(currentTurnIdx));
      }
    }

    /**
     * `nextStage`: clear the bets and the acted list, reveal the next
     * community cards, or go from the river to showdown and settle. Then the
     * turn goes to the first active seat after the dealer and moves on once
     * more, as `nextTurn` does.
     */
    method NextStage(rank: Evaluator)
      requires Valid() && |players| > 0 && (stage != River ==> HasActive(players))
      modifies this`players, this`minBet, this`playersActed, this`lastAggressorIdx, this`bettingRound,
        this`stage, this`deck, this`communityCards, this`pot, this`currentTurnIdx
      ensures Valid()
      ensures Snapshot() == StageAdvanced(old(Snapshot()), dealerIdx, rank)
      ensures stage == NextStageOf(old(stage))
      ensures minBet == BigBlind && playersActed == [] && lastAggressorIdx == -1 && bettingRound == old(bettingRound) + 1
      ensures SameSeats(players, old(players))
      ensures old(stage) != River ==>
        players == WithoutBets(old(players)) && pot == old(pot) && Total() == old(Total()) &&
        ActiveAt(players, currentTurnIdx)
      ensures old(stage) == Showdown ==> currentTurnIdx == SeekFrom(players, Next(dealerIdx, |players|))
      ensures old(stage) != River && old(stage) != Showdown ==>
        currentTurnIdx == NextTurnFrom(players, SeekFrom(players, Next(dealerIdx, |players|)))
      ensures old(stage) == River ==>
        var w := Winners(old(players), communityCards, rank);
        players == PaidOut(WithoutBets(old(players)), w, Payout(old(pot), |w|)) && pot == 0 &&
        currentTurnIdx == old(currentTurnIdx) && deck == old(deck) && communityCards == old(communityCards)
      ensures Total() <= old(Total())
    {
      ResetRound();
      if stage == River {
        WinnersSameCards(players, old(players), communityCards, rank);
        GoToShowdown(rank);
        return;
      }
      OpenStreet();
    }

    /** The resets at the top of `nextStage`: no bets, one big blind to match, nobody has acted. */
    method ResetRound()
      requires StacksOk(players)
      modifies this`players, this`minBet, this`playersActed, this`lastAggressorIdx, this`bettingRound
      ensures players == WithoutBets(old(players)) && SameSeats(players, old(players))
      ensures StacksOk(players) && SumChips(players) == old(SumChips(players))
      ensures HasActive(players) == HasActive(old(players))
      ensures minBet == BigBlind && playersActed == [] && lastAggressorIdx == -1 && bettingRound == old(bettingRound) + 1
      ensures Snapshot() == RoundCleared(old(Snapshot()))
    {
      ClearBets();
      SameStatusActive(players, old(players));
      minBet := BigBlind;
      playersActed := [];
      lastAggressorIdx := -1;
      bettingRound := bettingRound + 1;
    }

    /** The river branch of `nextStage`: go to showdown and settle. */
    method GoToShowdown(rank: Evaluator)
      requires stage == River && ChipsOk() && CardsOk()
      modifies this`stage, this`players, this`pot
      ensures stage == Showdown && ChipsOk() && CardsOk()
      ensures Snapshot() == ShowdownPaid(old(Snapshot()), rank)
      ensures SameSeats(players, old(players))
      ensures var w := Winners(old(players), communityCards, rank);
        players == PaidOut(old(players), w, Payout(old(pot), |w|)) && pot == 0
      ensures Total() <= old(Total())
    {
      stage := Showdown;
      SettleShowdown(rank);
    }

    /**
     * The branches of `nextStage` other than the river: reveal the next cards,
     * give the turn to the first active seat after the dealer, then move it on
     * as `nextTurn` does.
     */
    method OpenStreet()
      requires stage != River && CardsOk() && |players| > 0 && HasActive(players)
      modifies this`stage, this`deck, this`communityCards, this`currentTurnIdx
      ensures stage == NextStageOf(old(stage)) && CardsOk()
      ensures Snapshot() == StreetOpened(old(Snapshot()), dealerIdx)
      ensures old(stage) == Showdown ==> currentTurnIdx == SeekFrom(players, Next(dealerIdx, |players|))
      ensures old(stage) != Showdown ==>
        currentTurnIdx == NextTurnFrom(players, SeekFrom(players, Next(dealerIdx, |players|)))
      ensures ActiveAt(players, currentTurnIdx)
    {
      RevealStage();
      FindNextActivePlayer();
      // broadcastState is a notification only
      NextTurn();
    }

    /**
     * The stage branches of `nextStage` before the river: from preflop burn
     * one card and reveal three, from flop and turn burn one and reveal one;
     * from waiting and showdown nothing changes.
     */
    method RevealStage()
      requires stage != River && CardsOk()
      modifies this`stage, this`deck, this`communityCards
      ensures stage == NextStageOf(old(stage)) && CardsOk()
      ensures Snapshot() == Revealed(old(Snapshot()))
      ensures old(stage) == Preflop ==>
        var n := |old(deck)|;
        deck == old(deck)[..n - 4] &&
        communityCards == old(communityCards) + [old(deck)[n - 2], old(deck)[n - 3], old(deck)[n - 4]]
      ensures old(stage) == Flop || old(stage) == Turn ==>
        var n := |old(deck)|;
        deck == old(deck)[..n - 2] && communityCards == old(communityCards) + [old(deck)[n - 2]]
      ensures old(stage) == Waiting || old(stage) == Showdown ==>
        deck == old(deck) && communityCards == old(communityCards)
    {
      if stage == Preflop {
        RevealFlop();
      } else if stage == Flop || stage == Turn {
        RevealOne();
      }
    }

    /** The flop: burn one card, then three to the board in the order they are popped. */
    method RevealFlop()
      requires stage == Preflop && CardsOk()
      modifies this`stage, this`deck, this`communityCards
      ensures stage == Flop && CardsOk()
      ensures var n := |old(deck)|;
        deck == old(deck)[..n - 4] &&
        communityCards == old(communityCards) + [old(deck)[n - 2], old(deck)[n - 3], old(deck)[n - 4]]
      ensures Snapshot() == Revealed(old(Snapshot()))
    {
      ghost var d := deck;
      stage := Flop;
      var burned := PopCard();
      var c1 := PopCard();
      var c2 := PopCard();
      var c3 := PopCard();
      communityCards := communityCards + [c1, c2, c3];
      assert deck == d[..|d| - 4];
      DistinctPrefix(d, |d| - 4);
    }

    /** The turn or the river: burn one card, then one to the board. */
    method RevealOne()
      requires (stage == Flop || stage == Turn) && CardsOk()
      modifies this`stage, this`deck, this`communityCards
      ensures stage == NextStageOf(old(stage)) && CardsOk()
      ensures var n := |old(deck)|;
        deck == old(deck)[..n - 2] && communityCards == old(communityCards) + [old(deck)[n - 2]]
      ensures Snapshot() == Revealed(old(Snapshot()))
    {
      ghost var d := deck;
      stage := if stage == Flop then Turn else River;
      var burned := PopCard();
      var c := PopCard();
      communityCards := communityCards + [c];
      assert deck == d[..|d| - 2];
      DistinctPrefix(d, |d| - 2);
    }

    /** `deck.pop()`. */
    method PopCard() returns (c: Card)
      requires |deck| > 0
      modifies this`deck
      ensures c == old(deck)[|old(deck)| - 1] && deck == old(deck)[..|old(deck)| - 1]
    {
      c := deck[|deck| - 1];
      deck := deck[..|deck| - 1];
    }

    /** The `forEach` of `nextStage` that clears every seat's bet for the new round. */
    method ClearBets()
      requires StacksOk(players)
      modifies this`players
      ensures players == WithoutBets(old(players)) && SameSeats(players, old(players))
      ensures StacksOk(players) && SumChips(players) == old(SumChips(players))
    {
      ghost var before := players;
      for i := 0 to |players|
        invariant |players| == |before|
        invariant forall j :: 0 <= j < i ==> players[j] == before[j].(currentBet := 0)
        invariant forall j :: i <= j < |players| ==> players[j] == before[j]
      {
        players := players[i := players[i].(currentBet := 0)];
      }
      SumChipsSameStacks(players, before);
    }

    // -------------------------------------------------------- turn rotation

    /** `findNextActivePlayer`: the turn goes to the first active seat after the dealer. */
    method FindNextActivePlayer()
      requires |players| > 0 && HasActive(players)
      modifies this`currentTurnIdx
      ensures currentTurnIdx == SeekFrom(players, Next(dealerIdx, |players|))
      ensures ActiveAt(players, currentTurnIdx)
    {
      currentTurnIdx := SeekActive(players, Next(dealerIdx, |players|));
    }

    /**
     * `nextTurn`: outside showdown, move the turn to the nearest active seat
     * after the current one; if a scan of every seat finds none, stay put.
     * The "your turn" notice and the turn timer are not modelled.
     */
    method NextTurn()
      requires |players| > 0
      modifies this`currentTurnIdx
      ensures Snapshot() == TurnPassed(old(Snapshot()))
      ensures stage == Showdown ==> currentTurnIdx == old(currentTurnIdx)
      ensures stage != Showdown ==> currentTurnIdx == NextTurnFrom(players, old(currentTurnIdx))
      ensures stage != Showdown && HasActive(players) ==> ActiveAt(players, currentTurnIdx)
    {
      if stage == Showdown {
        return;
      }
      var n := |players|;
      var nextIdx, loops := ScanForActive(players, Next(currentTurnIdx, n));
      NextTurnFromSpec(players, currentTurnIdx);
      if loops >= n {
        return;
      }
      currentTurnIdx := nextIdx;
    }

    // ----------------------------------------------------------- settlement

    /**
     * `settleShowdown`: split the pot evenly among the best-ranked active
     * seats, rounding down; the pot is emptied (see the finding on
     * `settleWinner`), so the remainder is lost.
     */
    method SettleShowdown(rank: Evaluator)
      requires StacksOk(players) && pot >= 0
      modifies this`players, this`pot
      ensures StacksOk(players) && pot == 0 && SameSeats(players, old(players))
      ensures var w := Winners(old(players), communityCards, rank);
        players == PaidOut(old(players), w, Payout(old(pot), |w|)) &&
        Total() == old(Total()) - (old(pot) - Payout(old(pot), |w|) * |w|)
      ensures var w := Winners(old(players), communityCards, rank);
        (|w| > 0 ==> old(Total()) - |w| < Total()) && (|w| == 0 ==> Total() == old(Total()) - old(pot))
      ensures Total() <= old(Total())
    {
      var winners, best := SelectWinners(players, communityCards, rank);
      WinnersSpec(players, communityCards, rank);
      var amount := if |winners| > 0 then WinShare(pot, |winners|) else 0;
      PayWinners(winners, amount);
      pot := 0;
    }

    /** The `forEach` of `settleShowdown` that credits every winner with the same share. */
    method PayWinners(winners: seq<nat>, amount: nat)
      requires StacksOk(players)
      requires forall a :: 0 <= a < |winners| ==> winners[a] < |players|
      requires forall a, b :: 0 <= a < b < |winners| ==> winners[a] < winners[b]
      modifies this`players
      ensures StacksOk(players) && SameSeats(players, old(players))
      ensures players == PaidOut(old(players), winners, amount)
      ensures SumChips(players) == old(SumChips(players)) + amount * |winners|
    {
      ghost var before := players;
      PaidOutNone(before, amount);
      for j := 0 to |winners|
        invariant players == PaidOut(before, winners[..j], amount)
        invariant SumChips(players) == SumChips(before) + j * amount
      {
        var w := winners[j];
        assert w !in winners[..j];
        assert winners[..j + 1] == winners[..j] + [w];
        PaidOutStep(before, winners[..j], w, amount);
        MulStep(j, amount);
        SumChipsUpdate(players, w, players[w].(chips := players[w].chips + amount));
        players := players[w := players[w].(chips := players[w].chips + amount)];
      }
      assert winners[..|winners|] == winners;
      PaidOutKeeps(before, winners, amount);
    }

    /**
     * `settleWinner`: the last active seat takes the pot. The pot is then
     * emptied, which the source does not do (see the finding).
     */
    method SettleWinner(w: nat)
      requires StacksOk(players) && pot >= 0 && w < |players|
      modifies this`players, this`pot
      ensures StacksOk(players) && pot == 0
      ensures players == TakePot(old(players), w, old(pot))
      ensures Total() == old(Total())
    {
      players := TakePot(players, w, pot);
      pot := 0;
    }

    // -------------------------------------------------------- seat removal

    /**
     * `kickPlayer`: refuse an unknown kicker or target, a kicker who is not
     * host, and a self-kick, changing nothing; otherwise remove the target,
     * rescan for the turn if it was the target's, and keep a host seated.
     */
    method KickPlayer(kickerId: Id, targetId: Id) returns (r: KickOutcome)
      requires Valid() && KickSafe(kickerId, targetId)
      modifies this`players, this`currentTurnIdx
      ensures Valid()
      ensures r == KickVerdict(old(players), old(hostId), kickerId, targetId)
      ensures r != Kicked ==> unchanged(this)
      ensures r == Kicked ==>
        var t := IndexOf(old(players), targetId);
        0 <= t < old(|players|) && players == old(players)[..t] + old(players)[t + 1..] &&
        hostId == Some(kickerId) && IndexOf(players, kickerId) >= 0 &&
        Total() == old(Total()) - old(players)[t].chips
      ensures r == Kicked && IndexOf(old(players), targetId) == old(currentTurnIdx) && stage != Showdown ==>
        currentTurnIdx == SeekFrom(players, Next(dealerIdx, |players|)) && ActiveAt(players, currentTurnIdx)
      ensures !(r == Kicked && IndexOf(old(players), targetId) == old(currentTurnIdx) && stage != Showdown) ==>
        currentTurnIdx == old(currentTurnIdx)
    {
      r := KickVerdict(players, hostId, kickerId, targetId);
      if r != Kicked {
        return;
      }
      var kicker := IndexOf(players, kickerId);
      var targetIndex := IndexOf(players, targetId);
      // the target's "kicked" notice and forced disconnect are transport only
      IndexOfAfterRemove(players, targetIndex, kicker);
      RemoveSeat(targetIndex);
      // the host is the kicker, who is still seated, so the source's
      // reassignment of the host to the first seat cannot fire
    }

    /**
     * The removal step of `kickPlayer`: splice seat t out and, when it held the
     * turn outside showdown, give the turn to the first active seat after the
     * dealer. The turn index is not shifted when an earlier seat leaves.
     */
    method RemoveSeat(t: nat)
      requires ChipsOk() && t < |players|
      requires t == currentTurnIdx && stage != Showdown ==> HasActive(players[..t] + players[t + 1..])
      modifies this`players, this`currentTurnIdx
      ensures ChipsOk()
      ensures players == old(players)[..t] + old(players)[t + 1..]
      ensures Total() == old(Total()) - old(players)[t].chips
      ensures t == old(currentTurnIdx) && stage != Showdown ==>
        currentTurnIdx == SeekFrom(players, Next(dealerIdx, |players|)) && ActiveAt(players, currentTurnIdx)
      ensures !(t == old(currentTurnIdx) && stage != Showdown) ==> currentTurnIdx == old(currentTurnIdx)
    {
      RemoveSeatSpec(players, t);
      players := players[..t] + players[t + 1..];
      if t == currentTurnIdx && stage != Showdown {
        FindNextActivePlayer();
      }
    }

    // ------------------------------------------------ disconnect / reconnect

    /**
     * The `disconnect` handler: mark the seat disconnected; if it held the
     * turn outside showdown, fold it instead and apply the round-close rule.
     */
    method Disconnect(id: Id, now: int, rank: Evaluator)
      requires Valid() && DisconnectSafe(id)
      modifies this
      ensures Valid()
      ensures roomId == old(roomId) && hostId == old(hostId) && dealerIdx == old(dealerIdx)
      ensures IndexOf(old(players), id) == -1 ==> unchanged(this)
      ensures var i := IndexOf(old(players), id);
        i >= 0 && !(i == old(currentTurnIdx) && old(stage) != Showdown) ==>
          players == old(players)[i := old(players)[i].(status := Disconnected, lastActive := now)] &&
          pot == old(pot) && stage == old(stage) && currentTurnIdx == old(currentTurnIdx) &&
          deck == old(deck) && communityCards == old(communityCards) && minBet == old(minBet) &&
          playersActed == old(playersActed) && lastAggressorIdx == old(lastAggressorIdx) &&
          bettingRound == old(bettingRound)
      ensures var i := IndexOf(old(players), id);
        i >= 0 && i == old(currentTurnIdx) && old(stage) != Showdown ==>
          Snapshot() == RoundEnded(old(Snapshot()).(players :=
            old(players)[i := old(players)[i].(status := Folded, lastActive := now)]), dealerIdx, rank)
      ensures var i := IndexOf(old(players), id);
        i >= 0 && i == old(currentTurnIdx) && old(stage) != Showdown ==>
          |players| == old(|players|) && players[i].status == Folded && players[i].lastActive == now &&
          (stage != Showdown && |ActiveIndices(players)| != 1 ==> ActiveAt(players, currentTurnIdx))
      ensures Total() <= old(Total())
      ensures !(old(stage) == River && stage == Showdown) ==> Total() == old(Total())
    {
      var i := IndexOf(players, id);
      if i == -1 {
        return;
      }
      if i == currentTurnIdx && stage != Showdown {
        DisconnectOnTurn(i, now, rank);
      } else {
        MarkDisconnected(i, now);
      }
    }

    /**
     * The seat on turn drops: it is marked, then folded as if it had folded
     * itself, and the round-close rule runs. The turn timer is cancelled
     * here; timers are not modelled.
     */
    method DisconnectOnTurn(i: nat, now: int, rank: Evaluator)
      requires Valid() && i < |players| && i == currentTurnIdx && stage != Showdown
      requires stage != River ==> HasActive(players[i := players[i].(status := Folded)])
      modifies this`players, this`minBet, this`playersActed, this`lastAggressorIdx, this`bettingRound,
        this`stage, this`deck, this`communityCards, this`pot, this`currentTurnIdx
      ensures Valid()
      ensures Snapshot() == RoundEnded(old(Snapshot()).(players :=
        old(players)[i := old(players)[i].(status := Folded, lastActive := now)]), dealerIdx, rank)
      ensures |players| == old(|players|) && players[i].status == Folded && players[i].lastActive == now
      ensures stage != Showdown && |ActiveIndices(players)| != 1 ==> ActiveAt(players, currentTurnIdx)
      ensures Total() <= old(Total())
      ensures !(old(stage) == River && stage == Showdown) ==> Total() == old(Total())
    {
      MarkDisconnected(i, now);
      SameStatusActive(old(players)[i := old(players)[i].(status := Folded)], players[i := players[i].(status := Folded)]);
      ghost var q := old(players)[i := old(players)[i].(status := Folded, lastActive := now)];
      assert Snapshot().(players := players[i := players[i].(status := Folded)]) == old(Snapshot()).(players := q);
      FoldOnTurn(i, rank);
    }

    /** The first step of the `disconnect` handler: the seat is marked disconnected at `now`. */
    method MarkDisconnected(i: nat, now: int)
      requires StacksOk(players) && i < |players|
      modifies this`players
      ensures StacksOk(players) && SumChips(players) == old(SumChips(players))
      ensures players == old(players)[i := old(players)[i].(status := Disconnected, lastActive := now)]
    {
      SumChipsUpdate(players, i, players[i].(status := Disconnected, lastActive := now));
      players := players[i := players[i].(status := Disconnected, lastActive := now)];
    }

    /**
     * The on-turn branch of the `disconnect` handler: the seat is folded
     * (not left disconnected) and the round-close rule is applied.
     */
    method FoldOnTurn(i: nat, rank: Evaluator)
      requires Valid() && i < |players|
      requires stage != River ==> HasActive(players[i := players[i].(status := Folded)])
      modifies this`players, this`minBet, this`playersActed, this`lastAggressorIdx, this`bettingRound,
        this`stage, this`deck, this`communityCards, this`pot, this`currentTurnIdx
      ensures Valid()
      ensures Snapshot() == RoundEnded(old(Snapshot()).(players := old(players)[i := old(players)[i].(status := Folded)]), dealerIdx, rank)
      ensures |players| == old(|players|) && players[i].status == Folded && players[i].lastActive == old(players)[i].lastActive
      ensures stage != Showdown && |ActiveIndices(players)| != 1 ==> ActiveAt(players, currentTurnIdx)
      ensures Total() <= old(Total())
      ensures !(old(stage) == River && stage == Showdown) ==> Total() == old(Total())
    {
      SumChipsUpdate(players, i, players[i].(status := Folded));
      players := players[i := players[i].(status := Folded)];
      ActiveIndicesSpec(players);
      CheckRoundEnd(rank);
    }

    /** The `reconnect` handler: a disconnected seat becomes active again. */
    method Reconnect(id: Id)
      requires Valid()
      modifies this`players
      ensures Valid()
      ensures var i := IndexOf(old(players), id);
        players == if i >= 0 && old(players)[i].status == Disconnected
          then old(players)[i := old(players)[i].(status := Active)]
          else old(players)
    {
      var i := IndexOf(players, id);
      if i >= 0 && players[i].status == Disconnected {
        players := players[i := players[i].(status := Active)];
      }
    }
  }
}
