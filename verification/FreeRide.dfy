/** A hand on which a street closes although a seat has neither acted nor paid. */
module FreeRide {
  import opened Bytes
  import opened Entries
  import opened Betting
  import opened LogRules
  import opened StreetClosure

  // ------------------------------------------------------------- ideal signatures

  /** A 64-byte signature that names the entry it belongs to. */
  function Stamp(i: byte): (s: bytes)
    ensures |s| == 64 && s[0] == i
  {
    [i] + seq(63, _ => 0)
  }

  ghost predicate Stamped(log: seq<Entry>, n: nat) {
    && |log| <= 256 && Seated(log, n)
    && forall k :: 0 <= k < |log| ==>
         log[k].signature == Stamp(k) && log[k].round == k && log[k].coSigners == [] && log[k].data == []
  }

  /** Each stamp verifies for the payload of the entry it names and for no other. */
  function StampSession(log: seq<Entry>, n: nat, stack: uint64, keys: map<nat, nat>): Session
    requires AllSized(log)
  {
    Session(n, stack, keys,
      (k: nat, p: bytes, s: bytes) => |s| == 64 && s[0] < |log| && p == ProposalPayload(log[..s[0]], log[s[0]].action))
  }

  lemma StampIdeal(log: seq<Entry>, n: nat, stack: uint64, keys: map<nat, nat>)
    requires AllSized(log)
    ensures StampSession(log, n, stack, keys).Ideal()
  {
  }

  lemma StampAdmits(log: seq<Entry>, n: nat, stack: uint64, keys: map<nat, nat>, k: nat)
    requires n <= 256 && Stamped(log, n) && AllSized(log) && k < |log| && log[k].player in keys
    requires log[k].player == Turn(log[..k], n, stack)
    requires ValidateAction(After(log[..k], n, stack), log[k].player, log[k].action) == Ok
    ensures AdmitsAt(StampSession(log, n, stack, keys), log, k)
  {
    assert VerifyProposal(StampSession(log, n, stack, keys), log[..k], log[k]) == Ok;
  }

  // ------------------------------------------------------------------------ the hand

  function Play6(): (a: seq<(nat, Action)>)
    ensures |a| == 6
  {
    [(0, Action(CHECK, 0)), (1, Action(FOLD, 0)), (2, Action(CHECK, 0)),
     (0, Action(CHECK, 0)), (2, Action(RAISE, 10)), (2, Action(CHECK, 0))]
  }

  /** Seats 0, 1, 2 with 100 chips. Seat 1 folds in round 1, so rounds 4 and 5 are both seat 2's. */
  function Hand(): (log: seq<Entry>)
    ensures IsHand(log)
  {
    seq(6, (k: nat) requires k < 6 => Entry(k, Play6()[k].0, Play6()[k].1, Stamp(k), [], [], []))
  }

  function Tables(k: nat): Table
    requires k <= 6
  {
    if k == 0 then Table([100, 100, 100], 0, 0, [0, 0, 0], [false, false, false], 0, false, 3)
    else if k == 1 then Table([100, 100, 100], 0, 0, [0, 0, 0], [false, false, false], 0, false, 2)
    else if k == 2 then Table([100, 100, 100], 0, 0, [0, 0, 0], [false, true, false], 0, false, 1)
    else if k == 3 then Table([100, 100, 100], 0, 0, [0, 0, 0], [false, true, false], 1, false, 2)
    else if k == 4 then Table([100, 100, 100], 0, 0, [0, 0, 0], [false, true, false], 1, false, 1)
    else if k == 5 then Table([100, 100, 90], 10, 10, [0, 0, 10], [false, true, false], 1, false, 1)
    else Table([100, 100, 90], 10, 0, [0, 0, 0], [false, true, false], 2, false, 2)
  }

  lemma OneTurn(k: nat)
    requires k < 6
    ensures NextLive(Tables(k).folded, k % 3, 0) == Play6()[k].0
  {
    assert Tables(k).folded == if k < 2 then [false, false, false] else [false, true, false];
  }

  lemma OneIsLegal(k: nat)
    requires k < 6
    ensures ValidateAction(Tables(k), Play6()[k].0, Play6()[k].1) == Ok
  {
  }

  lemma OneStep(k: nat)
    requires k < 6
    ensures Step(Tables(k), Play6()[k].0, Play6()[k].1) == Tables(k + 1)
  {
    LiveOfThree(false, false, false);
    LiveOfThree(false, true, false);
    assert [false, false, false][1 := true] == [false, true, false];
    if k == 0 {
    } else if k == 1 {
      assert Step(Tables(1), 1, Action(FOLD, 0)) == Tables(2);
    } else if k == 2 {
      assert Step(Tables(2), 2, Action(CHECK, 0)) == Tables(3);
    } else if k == 3 {
      assert Step(Tables(3), 0, Action(CHECK, 0)) == Tables(4);
    } else if k == 4 {
      assert Step(Tables(4), 2, Action(RAISE, 10)) == Tables(5);
    } else {
      assert Step(Tables(5), 2, Action(CHECK, 0)) == Tables(6);
    }
  }

  ghost predicate IsHand(log: seq<Entry>) {
    && |log| == 6 && Stamped(log, 3)
    && forall k :: 0 <= k < 6 ==> log[k].player == Play6()[k].0 && log[k].action == Play6()[k].1
  }

  lemma {:induction false} Plays(log: seq<Entry>, k: nat)
    requires IsHand(log) && k <= 6
    ensures After(log[..k], 3, 100) == Tables(k)
  {
    if k > 0 {
      Plays(log, k - 1);
      OneStep(k - 1);
      assert log[..k] == log[..k - 1] + [log[k - 1]];
      AfterAppend(log[..k - 1], log[k - 1], 3, 100);
    }
  }

  /** The six entries are accepted under ideal signatures, the last one closes the flop, and at that
      instant seat 0 is in, has chips, and has put in nothing against a bet of ten. */
  lemma StreetClosesUnmatched(log: seq<Entry>)
    requires log == Hand()
    ensures AllSized(log)
    ensures var s := StampSession(log, 3, 100, map[0 := 0, 1 := 1, 2 := 2]);
            s.Playable() && s.Ideal() && Accepted(s, log)
    ensures var t := After(log[..5], 3, 100);
            var u := Play(t, log[5].player, log[5].action);
            && After(log[..6], 3, 100).street != t.street
            && !u.folded[0] && u.stacks[0] == 100 && u.contributions[0] == 0 && u.bet == 10
            && !Settled(u, 0)
  {
    var keys: map<nat, nat> := map[0 := 0, 1 := 1, 2 := 2];
    StampIdeal(log, 3, 100, keys);
    forall k | 0 <= k < 6 ensures AdmitsAt(StampSession(log, 3, 100, keys), log, k) {
      Plays(log, k);
      OneTurn(k);
      OneIsLegal(k);
      StampAdmits(log, 3, 100, keys, k);
    }
    Plays(log, 5);
    Plays(log, 6);
  }
}
