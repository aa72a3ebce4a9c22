/**
 * Showdown settlement: which active seats win, and how the pot is split.
 * The hand evaluator is abstract: it maps a seat's hole cards plus the
 * community cards to a rank, or to None when it cannot rank them (the
 * source catches the evaluator's exception and skips that seat).
 */
module Settlement {
  import opened Wrappers
  import opened Cards
  import opened Seats

  /** The hand evaluator: a rank where larger is stronger, or None on failure. */
  type Evaluator = seq<Card> -> Option<nat>

  /** A seat that takes part in the showdown: active, and its cards could be ranked. */
  predicate Contender(ps: seq<Seat>, board: seq<Card>, rank: Evaluator, i: int) {
    ActiveAt(ps, i) && rank(ps[i].hand + board).Some?
  }

  function Score(ps: seq<Seat>, board: seq<Card>, rank: Evaluator, i: int): nat
    requires Contender(ps, board, rank, i)
  {
    rank(ps[i].hand + board).value
  }

  /** The best score among contenders below k, or -1 (the source's starting bestRank) if none. */
  function BestUpTo(ps: seq<Seat>, board: seq<Card>, rank: Evaluator, k: nat): int
    requires k <= |ps|
  {
    if k == 0 then -1
    else
      var b := BestUpTo(ps, board, rank, k - 1);
      if Contender(ps, board, rank, k - 1) && Score(ps, board, rank, k - 1) > b
      then Score(ps, board, rank, k - 1) else b
  }

  /** Contenders below k whose score is exactly `best`, in seat order. */
  function AtScore(ps: seq<Seat>, board: seq<Card>, rank: Evaluator, best: int, k: nat): seq<nat>
    requires k <= |ps|
  {
    if k == 0 then []
    else
      var here := Contender(ps, board, rank, k - 1) && Score(ps, board, rank, k - 1) == best;
      AtScore(ps, board, rank, best, k - 1) + (if here then [k - 1] else [])
  }

  /** The winners: every contender holding the best score. */
  function Winners(ps: seq<Seat>, board: seq<Card>, rank: Evaluator): seq<nat> {
    AtScore(ps, board, rank, BestUpTo(ps, board, rank, |ps|), |ps|)
  }

  lemma {:induction false} BestUpToSpec(ps: seq<Seat>, board: seq<Card>, rank: Evaluator, k: nat)
    requires k <= |ps|
    ensures BestUpTo(ps, board, rank, k) >= -1
    ensures forall j :: 0 <= j < k && Contender(ps, board, rank, j) ==> Score(ps, board, rank, j) <= BestUpTo(ps, board, rank, k)
    ensures BestUpTo(ps, board, rank, k) == -1 <==> forall j :: 0 <= j < k ==> !Contender(ps, board, rank, j)
    ensures BestUpTo(ps, board, rank, k) >= 0 ==>
      exists j :: 0 <= j < k && Contender(ps, board, rank, j) && Score(ps, board, rank, j) == BestUpTo(ps, board, rank, k)
  {
    if k > 0 { BestUpToSpec(ps, board, rank, k - 1); }
  }

  lemma {:induction false} AtScoreSpec(ps: seq<Seat>, board: seq<Card>, rank: Evaluator, best: int, k: nat)
    requires k <= |ps|
    ensures forall i: nat :: i in AtScore(ps, board, rank, best, k) <==>
      i < k && Contender(ps, board, rank, i) && Score(ps, board, rank, i) == best
    ensures forall a, b :: 0 <= a < b < |AtScore(ps, board, rank, best, k)| ==>
      AtScore(ps, board, rank, best, k)[a] < AtScore(ps, board, rank, best, k)[b]
  {
    if k > 0 {
      AtScoreSpec(ps, board, rank, best, k - 1);
      var prev := AtScore(ps, board, rank, best, k - 1);
      assert forall a :: 0 <= a < |prev| ==> prev[a] < k - 1 by {
        forall a | 0 <= a < |prev| ensures prev[a] < k - 1 {
          assert prev[a] in prev;
        }
      }
    }
  }

  /** No contender below k scores above BestUpTo(k), so none of them sits at a higher score. */
  lemma AtScoreAboveBest(ps: seq<Seat>, board: seq<Card>, rank: Evaluator, best: int, k: nat)
    requires k <= |ps| && best > BestUpTo(ps, board, rank, k)
    ensures AtScore(ps, board, rank, best, k) == []
  {
    BestUpToSpec(ps, board, rank, k);
    AtScoreSpec(ps, board, rank, best, k);
  }

  /**
   * The winners are exactly the contenders no other contender beats, in seat
   * order; there is at least one whenever some seat is a contender.
   */
  lemma WinnersSpec(ps: seq<Seat>, board: seq<Card>, rank: Evaluator)
    ensures forall i: nat :: i in Winners(ps, board, rank) <==>
      i < |ps| && Contender(ps, board, rank, i) &&
      forall j :: 0 <= j < |ps| && Contender(ps, board, rank, j) ==> Score(ps, board, rank, j) <= Score(ps, board, rank, i)
    ensures forall a, b :: 0 <= a < b < |Winners(ps, board, rank)| ==> Winners(ps, board, rank)[a] < Winners(ps, board, rank)[b]
    ensures (exists i :: 0 <= i < |ps| && Contender(ps, board, rank, i)) <==> |Winners(ps, board, rank)| > 0
    ensures forall a :: 0 <= a < |Winners(ps, board, rank)| ==> Winners(ps, board, rank)[a] < |ps|
  {
    var best := BestUpTo(ps, board, rank, |ps|);
    BestUpToSpec(ps, board, rank, |ps|);
    AtScoreSpec(ps, board, rank, best, |ps|);
    var w := Winners(ps, board, rank);
    if exists i :: 0 <= i < |ps| && Contender(ps, board, rank, i) {
      var j :| 0 <= j < |ps| && Contender(ps, board, rank, j) && Score(ps, board, rank, j) == best;
      assert (j as nat) in w;
    }
    if |w| > 0 {
      assert w[0] in w;
    }
    forall a | 0 <= a < |w| ensures w[a] < |ps| {
      assert w[a] in w;
    }
  }

  /**
   * The `forEach` of `settleShowdown`: walk the active seats in order, keep the
   * best rank seen, restart the winner list on a strictly better rank and
   * extend it on an equal one; a seat the evaluator cannot rank is skipped.
   */
  method SelectWinners(ps: seq<Seat>, board: seq<Card>, rank: Evaluator) returns (winners: seq<nat>, best: int)
    ensures winners == Winners(ps, board, rank)
    ensures best == -1 <==> forall j :: 0 <= j < |ps| ==> !Contender(ps, board, rank, j)
    ensures forall j :: 0 <= j < |ps| && Contender(ps, board, rank, j) ==> Score(ps, board, rank, j) <= best
    ensures forall a :: 0 <= a < |winners| ==> Contender(ps, board, rank, winners[a]) && Score(ps, board, rank, winners[a]) == best
  {
    winners, best := [], -1;
    for i := 0 to |ps|
      invariant best == BestUpTo(ps, board, rank, i)
      invariant winners == AtScore(ps, board, rank, best, i)
    {
      if ps[i].status == Active {
        match rank(ps[i].hand + board)
        case None =>
        case Some(r) =>
          if r > best {
            AtScoreAboveBest(ps, board, rank, r, i);
            best := r;
            winners := [i];
          } else if r == best {
            winners := winners + [i];
          }
      }
    }
    BestUpToSpec(ps, board, rank, |ps|);
    AtScoreSpec(ps, board, rank, best, |ps|);
    forall a | 0 <= a < |winners|
      ensures Contender(ps, board, rank, winners[a]) && Score(ps, board, rank, winners[a]) == best
    {
      assert winners[a] in winners;
    }
  }

  /**
   * `Math.floor(pot / winners.length)`: each of k winners gets the same share,
   * the shares never exceed the pot, and what is left over is less than k.
   */
  function WinShare(pot: nat, k: nat): (share: nat)
    requires k > 0
    ensures share * k <= pot < share * k + k
  {
    pot / k
  }

  /** What each winner receives: the share when there are winners, nothing otherwise. */
  function Payout(pot: nat, k: nat): nat {
    if k == 0 then 0 else WinShare(pot, k)
  }

  /** The seats after the last active seat w took a pot of `pot` chips: only w's stack changes. */
  function TakePot(ps: seq<Seat>, w: nat, pot: int): (qs: seq<Seat>)
    requires w < |ps|
    ensures |qs| == |ps| && SumChips(qs) == SumChips(ps) + pot
    ensures SameSeats(qs, ps) && qs[w].chips == ps[w].chips + pot
    ensures forall i :: 0 <= i < |ps| && i != w ==> qs[i] == ps[i]
  {
    SumChipsUpdate(ps, w, ps[w].(chips := ps[w].chips + pot));
    ps[w := ps[w].(chips := ps[w].chips + pot)]
  }

  /** The seats after each index listed in w gained `amount` chips. */
  function PaidOut(ps: seq<Seat>, w: seq<nat>, amount: nat): seq<Seat> {
    seq(|ps|, i requires 0 <= i < |ps| =>
      ps[i].(chips := ps[i].chips + (if (i as nat) in w then amount else 0)))
  }

  lemma PaidOutNone(ps: seq<Seat>, amount: nat)
    ensures PaidOut(ps, [], amount) == ps
  {
  }

  /** Crediting one more winner w, not yet listed, adds `amount` to w's stack alone. */
  lemma PaidOutStep(ps: seq<Seat>, ws: seq<nat>, w: nat, amount: nat)
    requires w < |ps| && w !in ws
    ensures var q := PaidOut(ps, ws, amount);
      PaidOut(ps, ws + [w], amount) == q[w := q[w].(chips := q[w].chips + amount)]
  {
  }

  /** Paying out touches stacks only, and leaves no stack negative. */
  lemma PaidOutKeeps(ps: seq<Seat>, ws: seq<nat>, amount: nat)
    ensures SameSeats(PaidOut(ps, ws, amount), ps)
    ensures StacksOk(ps) ==> StacksOk(PaidOut(ps, ws, amount))
  {
  }

  /** Winners depend on each seat's status and cards only: bets and stacks do not matter. */
  lemma {:induction false} SameCardsSameBest(ps: seq<Seat>, qs: seq<Seat>, board: seq<Card>, rank: Evaluator, k: nat)
    requires |ps| == |qs| && k <= |ps|
    requires forall i :: 0 <= i < |ps| ==> ps[i].status == qs[i].status && ps[i].hand == qs[i].hand
    ensures BestUpTo(ps, board, rank, k) == BestUpTo(qs, board, rank, k)
    ensures forall best :: AtScore(ps, board, rank, best, k) == AtScore(qs, board, rank, best, k)
  {
    if k > 0 {
      SameCardsSameBest(ps, qs, board, rank, k - 1);
      assert Contender(ps, board, rank, k - 1) == Contender(qs, board, rank, k - 1);
    }
  }

  lemma WinnersSameCards(ps: seq<Seat>, qs: seq<Seat>, board: seq<Card>, rank: Evaluator)
    requires |ps| == |qs|
    requires forall i :: 0 <= i < |ps| ==> ps[i].status == qs[i].status && ps[i].hand == qs[i].hand
    ensures Winners(ps, board, rank) == Winners(qs, board, rank)
  {
    SameCardsSameBest(ps, qs, board, rank, |ps|);
  }
}
