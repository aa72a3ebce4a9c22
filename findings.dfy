/**
 * Two places where the source departs from what it evidently intends.
 *
 * `settleWinner` as the source writes it: the last active seat is credited
 * with the pot, but the pot is never emptied. The hand stays in its betting
 * stage until the restart five seconds later, and in that window the
 * disconnect handler folds the seat on turn and runs `checkRoundEnd` again,
 * which finds the same single active seat and pays the same pot a second
 * time. The table model itself empties the pot (`Table.PokerGame.SettleWinner`).
 *
 * `settleShowdown` as written does not empty the pot either, and it leaves
 * the seat that closed the river on turn and active. A fold by that seat in
 * the five seconds before the restart finds one active seat left, and
 * `settleWinner` pays it the whole pot a second time. The table model
 * empties the pot at the showdown, so the same fold pays nothing
 * (`Table.PokerGame.HandleAction` over `Table.RoundEnded`).
 *
 * The room registry as written: `rooms` is a plain object, so the lookup
 * `rooms[roomId]` also sees the members every object inherits. The registry
 * model keys its rooms by their own ids only (`Rooms.Registry.GetOrCreate`).
 */
module Findings {
  import opened Seats
  import opened Settlement
  import opened Table

  /** One run of `settleWinner` as written, on (seats, pot): w takes the pot and the pot keeps its value. */
  function SettleWinnerAsWritten(ps: seq<Seat>, w: nat, pot: int): (r: (seq<Seat>, int))
    requires w < |ps|
    ensures |r.0| == |ps| && SameSeats(r.0, ps)
    ensures SumChips(r.0) + r.1 == SumChips(ps) + pot + pot
  {
    (TakePot(ps, w, pot), pot)
  }

  /** Every replay of the settlement as written creates another pot's worth of chips. */
  lemma SettleWinnerReplayAsWritten(ps: seq<Seat>, w: nat, pot: int)
    requires w < |ps|
    ensures var once := SettleWinnerAsWritten(ps, w, pot);
      var twice := SettleWinnerAsWritten(once.0, w, once.1);
      SumChips(twice.0) + twice.1 == (SumChips(ps) + pot) + 2 * pot
  {
  }

  /** A seat at the start of a hand's betting with the given stack and status. */
  function ExampleSeat(id: Id, chips: int, status: Status): Seat {
    Seat(id, id, chips, [], status, 0, false, false, false, 0, false)
  }

  /**
   * Two seats after the blinds: "a" folded on turn with 9950 chips, "b"
   * active with 9900 chips, and 150 in the pot; 20000 chips in all.
   */
  function ExampleTable(): seq<Seat> {
    [ExampleSeat("a", 9950, Folded), ExampleSeat("b", 9900, Active)]
  }

  /**
   * The fold settles the hand: "b" gets the 150. Then "a", still on turn,
   * disconnects and the settlement runs again: "b" ends with 10200 and the
   * table holds 20300 chips where there were 20000.
   */
  lemma DisconnectReplaysSettlement()
    ensures var once := SettleWinnerAsWritten(ExampleTable(), 1, 150);
      var twice := SettleWinnerAsWritten(once.0, 1, once.1);
      SumChips(ExampleTable()) + 150 == 20000 &&
      twice.0[1].chips == 10200 && twice.1 == 150 &&
      SumChips(twice.0) + twice.1 == 20300
  {
    var ps := ExampleTable();
    assert SumChips(ps) == 19850 by {
      assert ps[1..] == [ps[1]];
      SumChipsSingle(ps[1]);
    }
    SettleWinnerReplayAsWritten(ps, 1, 150);
  }

  /**
   * With the pot emptied, as the table model does, the same replay finds a
   * pot of 0 and changes nothing: the seats after two settlements are the
   * seats after one.
   */
  lemma SettleWinnerReplayCorrected(ps: seq<Seat>, w: nat, pot: int)
    requires w < |ps|
    ensures TakePot(TakePot(ps, w, pot), w, 0) == TakePot(ps, w, pot)
    ensures SumChips(TakePot(TakePot(ps, w, pot), w, 0)) + 0 == SumChips(ps) + pot
  {
    var qs := TakePot(ps, w, pot);
    assert qs[w].(chips := qs[w].chips + 0) == qs[w];
  }

  /**
   * The names every plain JavaScript object inherits from `Object.prototype`.
   * Looking one of them up on `rooms` gives a function or an object, both
   * truthy, although no room of that name was ever created.
   */
  const Inherited: set<string> := {
    "constructor", "__proto__", "hasOwnProperty", "isPrototypeOf", "propertyIsEnumerable",
    "toString", "toLocaleString", "valueOf",
    "__defineGetter__", "__defineSetter__", "__lookupGetter__", "__lookupSetter__"}

  /**
   * The own room ids after a connection to `roomId`, as written: the test
   * `!rooms[roomId]` fails for an own room and for an inherited name alike,
   * so only an id that is neither gets a table.
   */
  function ConnectAsWritten(own: set<string>, roomId: string): (r: set<string>)
    ensures own <= r && r <= own + {roomId}
  {
    if roomId !in own && roomId !in Inherited then own + {roomId} else own
  }

  /**
   * A room named after an inherited member never gets a table of its own, on
   * any registry that lacks it. The next `join_game` then calls `addPlayer`
   * on the inherited member, which has no such method, and the handler throws.
   */
  lemma InheritedRoomAsWritten(own: set<string>, roomId: string)
    requires roomId in Inherited && roomId !in own
    ensures roomId !in ConnectAsWritten(own, roomId)
  {
  }

  /** The concrete case: the first connection to room "constructor" leaves the registry empty. */
  lemma ConstructorRoomAsWritten()
    ensures ConnectAsWritten({}, "constructor") == {}
  {
    InheritedRoomAsWritten({}, "constructor");
  }

  /** `settleShowdown` as written, on (seats, pot): the winners w get the floor share and the pot keeps its value. */
  function SettleShowdownAsWritten(ps: seq<Seat>, w: seq<nat>, pot: nat): (r: (seq<Seat>, int))
    ensures |r.0| == |ps| && SameSeats(r.0, ps) && r.1 == pot
  {
    PaidOutKeeps(ps, w, Payout(pot, |w|));
    (PaidOut(ps, w, Payout(pot, |w|)), pot)
  }

  /** Heads-up at the river: both seats active with 9850 chips each, 300 in the pot; 20000 chips in all. */
  function RiverTable(): seq<Seat> {
    [ExampleSeat("a", 9850, Active), ExampleSeat("b", 9850, Active)]
  }

  /**
   * The two hands tie and split the 300. Then "b", still on turn and active,
   * sends a fold: "a" is the one active seat left and is paid the 300 again,
   * so the stacks hold 20300 chips and the pot still reads 300.
   */
  lemma ShowdownFoldReplaysPot()
    ensures var split := SettleShowdownAsWritten(RiverTable(), [0, 1], 300);
      var folded := split.0[1 := split.0[1].(status := Folded, currentBet := 0)];
      var paid := SettleWinnerAsWritten(folded, 0, split.1);
      SumChips(RiverTable()) + 300 == 20000 &&
      split.0[0].chips == 10000 && split.0[1].chips == 10000 && split.1 == 300 &&
      ActiveIndices(folded) == [0] &&
      paid.0[0].chips == 10300 && SumChips(paid.0) == 20300 && paid.1 == 300
  {
    var ps := RiverTable();
    assert SumChips(ps) == 19700 by {
      assert ps[1..] == [ps[1]];
      SumChipsSingle(ps[1]);
    }
    var split := SettleShowdownAsWritten(ps, [0, 1], 300);
    var folded := split.0[1 := split.0[1].(status := Folded, currentBet := 0)];
    assert split.0[0].chips == 10000 && split.0[1].chips == 10000;
    assert ActiveIndices(folded) == [0] by {
      assert folded[0].status == Active && folded[1].status == Folded;
      assert ActiveUpTo(folded, 1) == [0];
    }
    assert SumChips(folded) == 20000 by {
      assert folded[1..] == [folded[1]];
      SumChipsSingle(folded[1]);
    }
  }

  /**
   * With the pot emptied at the showdown, as the table model does, a fold at
   * the showdown moves no chip: every stack and the pot stay as they were.
   */
  lemma ShowdownFoldCorrected(h: Hand, f: nat, dealer: nat, rank: Evaluator)
    requires h.stage == Showdown && h.pot == 0 && f < |h.players| && h.players[f].chips >= 0
    ensures var r := RoundEnded(ActionTaken(h, f, Fold), dealer, rank);
      r.pot == 0 && |r.players| == |h.players| &&
      forall i :: 0 <= i < |h.players| ==> r.players[i].chips == h.players[i].chips
  {
    var a := ActionTaken(h, f, Fold);
    assert forall i :: 0 <= i < |h.players| ==> a.players[i].chips == h.players[i].chips;
    RoundEndedLone(a, dealer, rank);
    RoundEndedOpen(a, dealer, rank);
  }
}
