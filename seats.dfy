/**
 * Seats of a table and the pure facts about a sequence of seats that the
 * table engine relies on: chip sums, active seats, lookup by id, the
 * wrap-around scan for the next active seat, and the disconnect sweep.
 */
module Seats {
  import opened Cards

  /** A connection identity (the socket id). */
  type Id = string

  /** Fixed table configuration. */
  const MaxPlayers: nat := 10
  const InitialChips: nat := 10000
  const SmallBlind: nat := 50
  const BigBlind: nat := 100
  /** How long a disconnected seat is kept before the sweep at the next hand drops it (ms). */
  const RetentionWindow: int := 5 * 60 * 1000

  datatype Status = Active | Folded | Sitout | Disconnected

  datatype Seat = Seat(
    id: Id,
    name: string,
    chips: int,
    hand: seq<Card>,
    status: Status,
    currentBet: int,
    isDealer: bool,
    isSmallBlind: bool,
    isBigBlind: bool,
    lastActive: int,
    isHost: bool)

  /** Every stack and every bet this round is non-negative. */
  predicate StacksOk(ps: seq<Seat>) {
    forall i :: 0 <= i < |ps| ==> ps[i].chips >= 0 && ps[i].currentBet >= 0
  }

  // ---------------------------------------------------------------- chips

  function SumChips(ps: seq<Seat>): int {
    if ps == [] then 0 else ps[0].chips + SumChips(ps[1..])
  }

  lemma {:induction false} SumChipsConcat(a: seq<Seat>, b: seq<Seat>)
    ensures SumChips(a + b) == SumChips(a) + SumChips(b)
  {
    if a != [] {
      assert (a + b)[1..] == a[1..] + b;
      SumChipsConcat(a[1..], b);
    } else {
      assert a + b == b;
    }
  }

  lemma SumChipsSingle(s: Seat)
    ensures SumChips([s]) == s.chips
  {
    assert [s][1..] == [];
  }

  /** Replacing one seat changes the chip sum by exactly the change of that seat's stack. */
  lemma SumChipsUpdate(ps: seq<Seat>, i: nat, s: Seat)
    requires i < |ps|
    ensures SumChips(ps[i := s]) == SumChips(ps) - ps[i].chips + s.chips
  {
    var a, b := ps[..i], ps[i + 1..];
    assert ps == (a + [ps[i]]) + b;
    assert ps[i := s] == (a + [s]) + b;
    SumChipsConcat(a + [ps[i]], b);
    SumChipsConcat(a + [s], b);
    SumChipsConcat(a, [ps[i]]);
    SumChipsConcat(a, [s]);
    SumChipsSingle(ps[i]);
    SumChipsSingle(s);
  }

  /** Removing the seat at i takes exactly its stack out of the chip sum. */
  lemma SumChipsRemove(ps: seq<Seat>, i: nat)
    requires i < |ps|
    ensures SumChips(ps[..i] + ps[i + 1..]) == SumChips(ps) - ps[i].chips
  {
    var a, b := ps[..i], ps[i + 1..];
    assert ps == (a + [ps[i]]) + b;
    SumChipsConcat(a + [ps[i]], b);
    SumChipsConcat(a, [ps[i]]);
    SumChipsConcat(a, b);
    SumChipsSingle(ps[i]);
  }

  /** `splice(t, 1)`: the seats before t stay put, the ones after move down one, t's stack leaves. */
  lemma RemoveSeatSpec(ps: seq<Seat>, t: nat)
    requires t < |ps|
    ensures |ps[..t] + ps[t + 1..]| == |ps| - 1
    ensures forall j :: 0 <= j < t ==> (ps[..t] + ps[t + 1..])[j] == ps[j]
    ensures forall j :: t < j < |ps| ==> (ps[..t] + ps[t + 1..])[j - 1] == ps[j]
    ensures SumChips(ps[..t] + ps[t + 1..]) == SumChips(ps) - ps[t].chips
    ensures StacksOk(ps) ==> StacksOk(ps[..t] + ps[t + 1..])
  {
    SumChipsRemove(ps, t);
  }

  /** After removing seat t, the id of any other seat is still found. */
  lemma IndexOfAfterRemove(ps: seq<Seat>, t: nat, k: nat)
    requires t < |ps| && k < |ps| && k != t
    ensures IndexOf(ps[..t] + ps[t + 1..], ps[k].id) >= 0
  {
    var rest := ps[..t] + ps[t + 1..];
    var j := if k < t then k else k - 1;
    assert rest[j] == ps[k];
  }

  /** Two seat lists with the same stacks, seat by seat, have the same chip sum. */
  lemma {:induction false} SumChipsSameStacks(ps: seq<Seat>, qs: seq<Seat>)
    requires |ps| == |qs|
    requires forall i :: 0 <= i < |ps| ==> ps[i].chips == qs[i].chips
    ensures SumChips(ps) == SumChips(qs)
  {
    if ps != [] { SumChipsSameStacks(ps[1..], qs[1..]); }
  }

  // -------------------------------------------------------- active seats

  predicate ActiveAt(ps: seq<Seat>, i: int) {
    0 <= i < |ps| && ps[i].status == Active
  }

  predicate HasActive(ps: seq<Seat>) {
    exists i :: 0 <= i < |ps| && ActiveAt(ps, i)
  }

  /** Indices of the active seats among the first k, in seat order. */
  function ActiveUpTo(ps: seq<Seat>, k: nat): seq<nat>
    requires k <= |ps|
  {
    if k == 0 then []
    else ActiveUpTo(ps, k - 1) + (if ps[k - 1].status == Active then [k - 1] else [])
  }

  /** `players.filter(p => p.status === 'active')`, as the seats' indices. */
  function ActiveIndices(ps: seq<Seat>): seq<nat> {
    ActiveUpTo(ps, |ps|)
  }

  /** The active indices below k are exactly the active seats below k, strictly increasing. */
  lemma {:induction false} ActiveUpToSpec(ps: seq<Seat>, k: nat)
    requires k <= |ps|
    ensures forall i: nat :: i in ActiveUpTo(ps, k) <==> i < k && ps[i].status == Active
    ensures forall a, b :: 0 <= a < b < |ActiveUpTo(ps, k)| ==> ActiveUpTo(ps, k)[a] < ActiveUpTo(ps, k)[b]
    ensures |ActiveUpTo(ps, k)| <= k
  {
    if k > 0 {
      ActiveUpToSpec(ps, k - 1);
      var prev := ActiveUpTo(ps, k - 1);
      assert forall a :: 0 <= a < |prev| ==> prev[a] < k - 1 by {
        forall a | 0 <= a < |prev| ensures prev[a] < k - 1 {
          assert prev[a] in prev;
        }
      }
    }
  }

  lemma ActiveIndicesSpec(ps: seq<Seat>)
    ensures forall i: nat :: i in ActiveIndices(ps) <==> ActiveAt(ps, i)
    ensures forall a, b :: 0 <= a < b < |ActiveIndices(ps)| ==> ActiveIndices(ps)[a] < ActiveIndices(ps)[b]
    ensures |ActiveIndices(ps)| <= |ps|
    ensures HasActive(ps) <==> |ActiveIndices(ps)| > 0
  {
    ActiveUpToSpec(ps, |ps|);
    if HasActive(ps) {
      var i :| 0 <= i < |ps| && ActiveAt(ps, i);
      assert (i as nat) in ActiveIndices(ps);
    }
    if |ActiveIndices(ps)| > 0 {
      assert ActiveIndices(ps)[0] in ActiveIndices(ps);
    }
  }

  /** A non-empty list of active indices means some seat is active. */
  lemma CountedActive(ps: seq<Seat>)
    requires |ActiveIndices(ps)| > 0
    ensures HasActive(ps)
  {
    ActiveIndicesSpec(ps);
  }

  /** When exactly one seat is active, it is the one seat that ActiveIndices lists. */
  lemma SoleActive(ps: seq<Seat>)
    requires |ActiveIndices(ps)| == 1
    ensures ActiveAt(ps, ActiveIndices(ps)[0])
    ensures forall i :: ActiveAt(ps, i) ==> i == ActiveIndices(ps)[0]
  {
    ActiveIndicesSpec(ps);
    assert ActiveIndices(ps)[0] in ActiveIndices(ps);
    forall i | ActiveAt(ps, i) ensures i == ActiveIndices(ps)[0] {
      assert (i as nat) in ActiveIndices(ps);
    }
  }

  /** The active indices depend on the seats' statuses only. */
  lemma {:induction false} ActiveUpToSameStatus(ps: seq<Seat>, qs: seq<Seat>, k: nat)
    requires |ps| == |qs| && k <= |ps|
    requires forall i :: 0 <= i < |ps| ==> ps[i].status == qs[i].status
    ensures ActiveUpTo(ps, k) == ActiveUpTo(qs, k)
  {
    if k > 0 { ActiveUpToSameStatus(ps, qs, k - 1); }
  }

  /** Replacing seat i by s changes the number of active seats below k by the change at i. */
  lemma {:induction false} ActiveCountUpdate(ps: seq<Seat>, i: nat, s: Seat, k: nat)
    requires i < |ps| && k <= |ps|
    ensures |ActiveUpTo(ps[i := s], k)| ==
      |ActiveUpTo(ps, k)|
      - (if i < k && ps[i].status == Active then 1 else 0)
      + (if i < k && s.status == Active then 1 else 0)
  {
    if k > 0 { ActiveCountUpdate(ps, i, s, k - 1); }
  }

  /** Counting active seats over a longer prefix never gives fewer, and seat i adds one. */
  lemma {:induction false} ActiveUpToMono(ps: seq<Seat>, i: nat, k: nat)
    requires i <= k <= |ps|
    ensures |ActiveUpTo(ps, i)| + (if i < k && ps[i].status == Active then 1 else 0) <= |ActiveUpTo(ps, k)|
  {
    if k > i {
      if k - 1 > i { ActiveUpToMono(ps, i, k - 1); } else { assert k - 1 == i; }
    }
  }

  /** Number of seats with a positive stack among the first k. */
  function FundedUpTo(ps: seq<Seat>, k: nat): nat
    requires k <= |ps|
  {
    if k == 0 then 0 else FundedUpTo(ps, k - 1) + (if ps[k - 1].chips > 0 then 1 else 0)
  }

  /** `players.filter(p => p.chips > 0).length`. */
  function FundedCount(ps: seq<Seat>): nat {
    FundedUpTo(ps, |ps|)
  }

  /** If exactly the funded seats of qs are the active seats of ps, the two counts agree. */
  lemma {:induction false} FundedMatchesActive(ps: seq<Seat>, qs: seq<Seat>, k: nat)
    requires |ps| == |qs| && k <= |ps|
    requires forall i :: 0 <= i < |ps| ==> (ps[i].status == Active <==> qs[i].chips > 0)
    ensures |ActiveUpTo(ps, k)| == FundedUpTo(qs, k)
    ensures FundedUpTo(qs, k) <= k
  {
    if k > 0 { FundedMatchesActive(ps, qs, k - 1); }
  }

  /** The seats agree in everything but their stacks and their bets. */
  predicate SameSeats(ps: seq<Seat>, qs: seq<Seat>) {
    |ps| == |qs| &&
    forall i :: 0 <= i < |ps| ==>
      ps[i].id == qs[i].id && ps[i].name == qs[i].name && ps[i].hand == qs[i].hand &&
      ps[i].status == qs[i].status && ps[i].isDealer == qs[i].isDealer &&
      ps[i].isSmallBlind == qs[i].isSmallBlind && ps[i].isBigBlind == qs[i].isBigBlind &&
      ps[i].lastActive == qs[i].lastActive && ps[i].isHost == qs[i].isHost
  }

  /** Seats with the same statuses have the same active seats. */
  lemma SameStatusActive(ps: seq<Seat>, qs: seq<Seat>)
    requires |ps| == |qs| && forall i :: 0 <= i < |ps| ==> ps[i].status == qs[i].status
    ensures HasActive(ps) <==> HasActive(qs)
    ensures ActiveIndices(ps) == ActiveIndices(qs)
  {
    ActiveUpToSameStatus(ps, qs, |ps|);
    if HasActive(qs) {
      var a :| 0 <= a < |qs| && ActiveAt(qs, a);
      assert ActiveAt(ps, a);
    }
    if HasActive(ps) {
      var a :| 0 <= a < |ps| && ActiveAt(ps, a);
      assert ActiveAt(qs, a);
    }
  }

  function Min(a: int, b: int): int {
    if a <= b then a else b
  }

  /** The seats with this round's bets cleared (`players.forEach(p => p.currentBet = 0)`). */
  function WithoutBets(ps: seq<Seat>): seq<Seat> {
    seq(|ps|, i requires 0 <= i < |ps| => ps[i].(currentBet := 0))
  }

  // ----------------------------------------------------------- lookup

  /** `findIndex(p => p.id === id)`: the first seat with the id, or -1. */
  function IndexOf(ps: seq<Seat>, id: Id): (r: int)
    ensures -1 <= r < |ps|
    ensures r >= 0 ==> ps[r].id == id && forall j :: 0 <= j < r ==> ps[j].id != id
    ensures r == -1 <==> forall j :: 0 <= j < |ps| ==> ps[j].id != id
  {
    if ps == [] then -1
    else if ps[0].id == id then 0
    else
      var t := IndexOf(ps[1..], id);
      if t == -1 then -1 else t + 1
  }

  // ------------------------------------------------- wrap-around scan

  /**
   * The seat after i at a table of n seats, the source's `(i + 1) % n`; i
   * may lie past the table (an index left stale when seats went), and each
   * full lap of n is dropped.
   */
  function Next(i: nat, n: nat): (j: nat)
    requires 0 < n
    ensures j < n
    decreases i
  {
    if i + 1 < n then i + 1 else if i + 1 == n then 0 else Next(i - n, n)
  }

  /** Next is `(i + 1) % n`. */
  lemma {:induction false} NextIsMod(i: nat, n: nat)
    requires 0 < n
    ensures Next(i, n) == (i + 1) % n
    decreases i
  {
    if i + 1 < n {
      ModUnique(i + 1, n, 0, i + 1);
    } else if i + 1 == n {
      ModUnique(n, n, 1, 0);
    } else {
      NextIsMod(i - n, n);
      ModShift(i - n + 1, n);
    }
  }

  /** Adding one lap leaves the remainder alone. */
  lemma ModShift(x: nat, n: nat)
    requires 0 < n
    ensures (x + n) % n == x % n
  {
    var q, r := x / n, x % n;
    assert x == q * n + r;
    assert x + n == (q + 1) * n + r;
    ModUnique(x + n, n, q + 1, r);
  }

  lemma MulLe(a: nat, b: nat, n: nat)
    ensures a <= b ==> a * n <= b * n
  {
    if a <= b {
      var d: nat := b - a;
      assert b * n == a * n + d * n;
    }
  }

  /** The remainder is the r of any a == q * n + r with r below n. */
  lemma ModUnique(a: nat, n: nat, q: nat, r: nat)
    requires 0 < n && r < n && a == q * n + r
    ensures a % n == r
  {
    var q': nat, r' := a / n, a % n;
    assert a == q' * n + r';
    MulLe(q' + 1, q, n);
    MulLe(q + 1, q', n);
    assert (q' + 1) * n == q' * n + n;
    assert (q + 1) * n == q * n + n;
  }

  /** With two or more seats, the two seats after x are different seats (small and big blind). */
  lemma NextTwoDiffer(x: nat, n: nat)
    requires 2 <= n
    ensures Next(x, n) != Next(Next(x, n), n)
  {
  }

  /** The seat index reached from start after k single steps `idx = (idx + 1) % n`. */
  function Slot(n: nat, start: nat, k: nat): (r: nat)
    requires start < n
    ensures r < n
  {
    if k == 0 then start else Next(Slot(n, start, k - 1), n)
  }

  /** Fewer than n steps from start reach start + k, wrapping once past the end. */
  lemma {:induction false} SlotClosed(n: nat, start: nat, k: nat)
    requires start < n && k < n
    ensures Slot(n, start, k) == if start + k < n then start + k else start + k - n
  {
    if k > 0 {
      SlotClosed(n, start, k - 1);
    }
  }

  /** Every seat is reached from start in fewer than n steps. */
  lemma SlotCovers(n: nat, start: nat, a: nat)
    requires start < n && a < n
    ensures exists k :: 0 <= k < n && Slot(n, start, k) == a
  {
    var g := if a >= start then a - start else a + n - start;
    SlotClosed(n, start, g);
    assert Slot(n, start, g) == a;
  }

  /**
   * Number of steps from start to the first active seat, looking at the
   * slots k, k + 1, ... below n; n when none of them is active.
   */
  function FirstActiveStep(ps: seq<Seat>, start: nat, k: nat): nat
    requires start < |ps| && k <= |ps|
    decreases |ps| - k
  {
    if k == |ps| then k
    else if ps[Slot(|ps|, start, k)].status == Active then k
    else FirstActiveStep(ps, start, k + 1)
  }

  /** A nearest active seat: active at step k and no active seat at an earlier step. */
  predicate NearestActive(ps: seq<Seat>, start: nat, k: nat)
    requires start < |ps|
  {
    k < |ps| && ps[Slot(|ps|, start, k)].status == Active &&
    forall j :: 0 <= j < k ==> ps[Slot(|ps|, start, j)].status != Active
  }

  lemma {:induction false} FirstActiveStepSpec(ps: seq<Seat>, start: nat, k: nat)
    requires start < |ps| && k <= |ps|
    ensures k <= FirstActiveStep(ps, start, k) <= |ps|
    ensures FirstActiveStep(ps, start, k) < |ps| ==> ps[Slot(|ps|, start, FirstActiveStep(ps, start, k))].status == Active
    ensures forall j :: k <= j < FirstActiveStep(ps, start, k) ==> ps[Slot(|ps|, start, j)].status != Active
    decreases |ps| - k
  {
    if k < |ps| && ps[Slot(|ps|, start, k)].status != Active {
      FirstActiveStepSpec(ps, start, k + 1);
    }
  }

  /**
   * The scan from start finds a seat within n steps exactly when some seat
   * is active, and the seat it finds is the nearest active one.
   */
  lemma FirstActiveStepFinds(ps: seq<Seat>, start: nat)
    requires start < |ps|
    ensures FirstActiveStep(ps, start, 0) < |ps| <==> HasActive(ps)
    ensures HasActive(ps) ==> NearestActive(ps, start, FirstActiveStep(ps, start, 0))
  {
    FirstActiveStepSpec(ps, start, 0);
    var k := FirstActiveStep(ps, start, 0);
    if HasActive(ps) {
      var a :| 0 <= a < |ps| && ActiveAt(ps, a);
      SlotCovers(|ps|, start, a);
      var g :| 0 <= g < |ps| && Slot(|ps|, start, g) == a;
      assert k <= g;
    }
    if k < |ps| {
      assert ActiveAt(ps, Slot(|ps|, start, k));
    }
  }

  /** The nearest active seat is unique. */
  lemma NearestActiveUnique(ps: seq<Seat>, start: nat, k1: nat, k2: nat)
    requires start < |ps| && NearestActive(ps, start, k1) && NearestActive(ps, start, k2)
    ensures k1 == k2
  {
  }

  /** Where `nextTurn` moves the turn from cur: the nearest active seat after it, or cur if none. */
  function NextTurnFrom(ps: seq<Seat>, cur: nat): nat
    requires |ps| > 0
  {
    var start := Next(cur, |ps|);
    var k := FirstActiveStep(ps, start, 0);
    if k < |ps| then Slot(|ps|, start, k) else cur
  }

  /** Where `findNextActivePlayer` puts the turn: the first active seat at or after start. */
  function SeekFrom(ps: seq<Seat>, start: nat): nat
    requires start < |ps|
  {
    Slot(|ps|, start, FirstActiveStep(ps, start, 0))
  }

  /**
   * With an active seat present, nextTurn lands on the nearest active seat
   * after cur (wrapping past the last seat); with none it stays put.
   */
  lemma NextTurnFromSpec(ps: seq<Seat>, cur: nat)
    requires |ps| > 0
    ensures HasActive(ps) ==> ActiveAt(ps, NextTurnFrom(ps, cur))
    ensures HasActive(ps) ==> NearestActive(ps, Next(cur, |ps|), FirstActiveStep(ps, Next(cur, |ps|), 0))
    ensures !HasActive(ps) ==> NextTurnFrom(ps, cur) == cur
  {
    FirstActiveStepFinds(ps, Next(cur, |ps|));
  }

  /** With an active seat present, the seek lands on the first active seat from start. */
  lemma SeekFromSpec(ps: seq<Seat>, start: nat)
    requires start < |ps| && HasActive(ps)
    ensures ActiveAt(ps, SeekFrom(ps, start))
    ensures NearestActive(ps, start, FirstActiveStep(ps, start, 0))
  {
    FirstActiveStepFinds(ps, start);
  }

  /** Wherever the seek starts, it stops on an active seat when there is one. */
  lemma SeekFromActive(ps: seq<Seat>, start: nat)
    requires start < |ps|
    ensures HasActive(ps) ==> ActiveAt(ps, SeekFrom(ps, start))
  {
    if HasActive(ps) {
      SeekFromSpec(ps, start);
    }
  }

  /**
   * The loop of `nextTurn`: from start, step while the seat is not active
   * and fewer than n steps were taken. Returns the seat reached and the
   * number of steps; n steps means no active seat was found.
   */
  method ScanForActive(ps: seq<Seat>, start: nat) returns (idx: nat, loops: nat)
    requires start < |ps|
    ensures loops <= |ps| && idx == Slot(|ps|, start, loops)
    ensures loops < |ps| ==> ps[idx].status == Active
    ensures forall j :: 0 <= j < loops ==> ps[Slot(|ps|, start, j)].status != Active
    ensures loops == FirstActiveStep(ps, start, 0)
  {
    var n := |ps|;
    idx, loops := start, 0;
    while ps[idx].status != Active && loops < n
      invariant loops <= n && idx == Slot(n, start, loops)
      invariant forall j :: 0 <= j < loops ==> ps[Slot(n, start, j)].status != Active
      invariant FirstActiveStep(ps, start, 0) == FirstActiveStep(ps, start, loops)
      decreases n - loops
    {
      idx := Next(idx, n);
      loops := loops + 1;
    }
  }

  /**
   * The loop of `findNextActivePlayer`: from start, step until the seat is
   * active. It terminates only because some seat is active.
   */
  method SeekActive(ps: seq<Seat>, start: nat) returns (idx: nat)
    requires start < |ps| && HasActive(ps)
    ensures idx < |ps| && ps[idx].status == Active
    ensures NearestActive(ps, start, FirstActiveStep(ps, start, 0))
    ensures idx == Slot(|ps|, start, FirstActiveStep(ps, start, 0))
  {
    var n := |ps|;
    FirstActiveStepFinds(ps, start);
    ghost var steps := 0;
    idx := start;
    while ps[idx].status != Active
      invariant steps < n && idx == Slot(n, start, steps)
      invariant FirstActiveStep(ps, start, 0) == FirstActiveStep(ps, start, steps)
      decreases n - steps
    {
      FirstActiveStepSpec(ps, start, steps + 1);
      idx := Next(idx, n);
      steps := steps + 1;
    }
  }

  // ------------------------------------------------- disconnect sweep

  /** A seat the sweep at the start of a hand drops: disconnected for longer than the window. */
  predicate Expired(p: Seat, now: int) {
    p.status == Disconnected && now - p.lastActive > RetentionWindow
  }

  /** `players.filter(...)` of `cleanupDisconnectedPlayers`: the seats kept, in order. */
  function Retained(ps: seq<Seat>, now: int): seq<Seat> {
    if ps == [] then []
    else (if Expired(ps[0], now) then [] else [ps[0]]) + Retained(ps[1..], now)
  }

  /** The seats the sweep drops, in order; their stacks are not refunded. */
  function Abandoned(ps: seq<Seat>, now: int): seq<Seat> {
    if ps == [] then []
    else (if Expired(ps[0], now) then [ps[0]] else []) + Abandoned(ps[1..], now)
  }

  /**
   * The sweep keeps exactly the seats that are not expired, in their order,
   * and the chips in play drop by exactly the abandoned stacks.
   */
  lemma {:induction false} RetainedSpec(ps: seq<Seat>, now: int)
    ensures forall p :: p in Retained(ps, now) <==> p in ps && !Expired(p, now)
    ensures forall p :: p in Abandoned(ps, now) <==> p in ps && Expired(p, now)
    ensures |Retained(ps, now)| + |Abandoned(ps, now)| == |ps|
    ensures SumChips(Retained(ps, now)) + SumChips(Abandoned(ps, now)) == SumChips(ps)
    ensures (forall i :: 0 <= i < |ps| ==> !Expired(ps[i], now)) ==> Retained(ps, now) == ps
  {
    if ps != [] {
      RetainedSpec(ps[1..], now);
      var head := if Expired(ps[0], now) then [] else [ps[0]];
      var dropped := if Expired(ps[0], now) then [ps[0]] else [];
      SumChipsConcat(head, Retained(ps[1..], now));
      SumChipsConcat(dropped, Abandoned(ps[1..], now));
      assert ps == [ps[0]] + ps[1..];
      forall p ensures p in ps <==> p == ps[0] || p in ps[1..] {
      }
      if forall i :: 0 <= i < |ps| ==> !Expired(ps[i], now) {
        assert forall i :: 0 <= i < |ps[1..]| ==> !Expired(ps[1..][i], now) by {
          forall i | 0 <= i < |ps[1..]| ensures !Expired(ps[1..][i], now) {
            assert ps[1..][i] == ps[i + 1];
          }
        }
      }
    }
  }

  /** The sweep keeps every stack non-negative. */
  lemma {:induction false} RetainedStacksOk(ps: seq<Seat>, now: int)
    requires StacksOk(ps)
    ensures StacksOk(Retained(ps, now))
    ensures |Retained(ps, now)| <= |ps|
  {
    RetainedSpec(ps, now);
    forall i | 0 <= i < |Retained(ps, now)|
      ensures Retained(ps, now)[i].chips >= 0 && Retained(ps, now)[i].currentBet >= 0
    {
      assert Retained(ps, now)[i] in Retained(ps, now);
    }
  }

  // ------------------------------------------------------ new seats

  function DigitChar(d: nat): char
    requires d < 10
  {
    "0123456789"[d]
  }

  /** Decimal digits of n. */
  function DecimalString(n: nat): string {
    if n < 10 then [DigitChar(n)] else DecimalString(n / 10) + [DigitChar(n % 10)]
  }

  /**
   * The seat `addPlayer` appends when `count` seats are already taken: the
   * given name, or "Player <count + 1>" for an empty one, a full starting
   * stack, no cards, active, no bet, no blind flags.
   */
  function NewSeat(id: Id, name: string, count: nat, now: int, isHost: bool): (s: Seat)
    ensures s.id == id && s.chips == InitialChips && s.status == Active
    ensures s.hand == [] && s.currentBet == 0 && s.isHost == isHost && s.lastActive == now
    ensures !s.isDealer && !s.isSmallBlind && !s.isBigBlind
    ensures name != "" ==> s.name == name
    ensures name == "" ==> s.name == "Player " + DecimalString(count + 1)
  {
    Seat(id, if name != "" then name else "Player " + DecimalString(count + 1),
         InitialChips, [], Active, 0, false, false, false, now, isHost)
  }
}
