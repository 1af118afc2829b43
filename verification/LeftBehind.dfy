/** Committed by some and never by another: when a seat that missed a deadline can still commit what the
    others have, and what it stops if it cannot (docs/whitepaper/consistency.md, internal/round/runner.go). */
module LeftBehind {
  import opened Bytes
  import opened Entries
  import opened Consensus
  import opened ConsensusInv
  import opened Agreement
  import opened Disagreement
  import opened RoundFiles
  import opened Scenario
  import opened Straggler

  // --------------------------------------------------------------------------- one round ahead

  lemma ReachedByPart(c: Config, nodes: seq<Replica>, j: nat, k: Slot)
    requires Inv(c, nodes) && TookPart(nodes, j, k)
    ensures k.0 <= |nodes[j].log|
  {
    assert NodeOk(c, nodes, j);
    if k in nodes[j].past.hosted { assert HostedOk(nodes[j], k); } else { assert ProposedOk(nodes[j], k); }
  }

  lemma ReachedByAttesting(c: Config, nodes: seq<Replica>, j: nat, r: nat)
    requires Inv(c, nodes) && j < |nodes| && r in nodes[j].past.attested
    ensures r <= |nodes[j].log|
  {
    assert NodeOk(c, nodes, j);
    assert AttestedOk(nodes[j], r);
  }

  /** Whoever is in after a round was in before it. */
  lemma InEarlier(c: Config, nodes: seq<Replica>, i: nat, m: nat, k: nat, j: nat)
    requires Inv(c, nodes) && i < |nodes| && m <= k <= |nodes[i].log| && !Out(c.s, nodes[i].log[..k], j)
    ensures !Out(c.s, nodes[i].log[..m], j)
  {
    hide Out;
    LogSeated(c, nodes, i);
    var log := nodes[i].log[..k];
    assert log[..m] == nodes[i].log[..m];
    if Out(c.s, log[..m], j) { OutPrefix(c.s, log, m, j); }
  }

  lemma FoldedIsOut(c: Config, nodes: seq<Replica>, i: nat, r: nat)
    requires Inv(c, nodes) && CommittedByFold(nodes, i, r)
    ensures Out(c.s, nodes[i].log[..r + 1], nodes[i].log[r].player)
  {
    hide Out;
    LogSeated(c, nodes, i);
    LogIsOk(c, nodes, i);
    OpenBefore(c, nodes[i], r);
    FoldCoSigners(c, nodes, i, r);
    assert nodes[i].log[..r + 1] == nodes[i].log[..r] + [nodes[i].log[r]];
    FoldIsOut(c.s, nodes[i].log[..r], nodes[i].log[r]);
  }

  /** No round is closed without every seat that is in after it having reached it. */
  lemma ClosedMeansReached(c: Config, nodes: seq<Replica>, i: nat, j: nat, r: nat)
    requires Inv(c, nodes) && i < |nodes| && j < |nodes| && i != j && r < |nodes[i].log|
    requires !Out(c.s, nodes[i].log[..r + 1], j)
    ensures r <= |nodes[j].log|
  {
    hide Inv;
    hide Out;
    InEarlier(c, nodes, i, r, r + 1, j);
    CommitKinds(c, nodes, i, r);
    if CommittedByReceipts(nodes, i, r) {
      PeerTookPart(c, nodes, i, j, r);
      ReachedByPart(c, nodes, j, CommitSlot(nodes, i, r));
    } else {
      FoldedIsOut(c, nodes, i, r);
      CoSignerAttested(c, nodes, i, j, r);
      ReachedByAttesting(c, nodes, j, r);
    }
  }

  /** Every seat that was in, other than the folded one, attested an auto-folded round. */
  lemma CoSignerAttested(c: Config, nodes: seq<Replica>, i: nat, j: nat, r: nat)
    requires Inv(c, nodes) && CommittedByFold(nodes, i, r) && j < |nodes|
    requires !Out(c.s, nodes[i].log[..r], j) && j != nodes[i].log[r].player
    ensures r in nodes[j].past.attested
  {
    FoldCoSigners(c, nodes, i, r);
    assert NodeOk(c, nodes, i);
    assert RoundBacked(c, nodes, nodes[i], r);
    var e := nodes[i].log[r];
    var k :| 0 <= k < |e.coSigners| && e.coSigners[k] == j;
    assert HasAttested(nodes, e.coSigners[k], r, e.coSignatures[k]);
  }

  /** In every run, no replica is more than one round ahead of a seat that is in on its log. */
  lemma AtMostOneAhead(c: Config, trace: seq<seq<Replica>>, t: nat, i: nat, j: nat)
    requires c.s.n <= 256 && Run(c, trace) && t < |trace| && i < |trace[t]| && j < |trace[t]|
    requires !Out(c.s, trace[t][i].log, j)
    ensures |trace[t][i].log| <= |trace[t][j].log| + 1
  {
    hide Run;
    hide Out;
    var nodes := trace[t];
    var log := nodes[i].log;
    RunInv(c, trace, t);
    if i != j && log != [] {
      assert log[..|log| - 1 + 1] == log;
      ClosedMeansReached(c, nodes, i, j, |log| - 1);
    }
  }

  /** Going on for a second round past a seat that was in takes the auto-fold of that very seat. */
  lemma GoesOnOnlyByFold(c: Config, trace: seq<seq<Replica>>, t: nat, i: nat, j: nat)
    requires c.s.n <= 256 && Run(c, trace) && t < |trace| && i < |trace[t]| && j < |trace[t]| && i != j
    requires var r := |trace[t][j].log|; r + 1 < |trace[t][i].log| && !Out(c.s, trace[t][i].log[..r + 1], j)
    ensures var r := |trace[t][j].log|; CommittedByFold(trace[t], i, r + 1) && trace[t][i].log[r + 1].player == j
  {
    hide Run;
    hide Out;
    hide Inv;
    var nodes := trace[t];
    var r := |nodes[j].log|;
    RunInv(c, trace, t);
    CommitKinds(c, nodes, i, r + 1);
    if CommittedByReceipts(nodes, i, r + 1) {
      PeerTookPart(c, nodes, i, j, r + 1);
      ReachedByPart(c, nodes, j, CommitSlot(nodes, i, r + 1));
    } else if nodes[i].log[r + 1].player != j {
      CoSignerAttested(c, nodes, i, j, r + 1);
      ReachedByAttesting(c, nodes, j, r + 1);
    }
  }

  // ------------------------------------------------------------------------- attempts only grow

  /** The replica went past attempt `a` of round `r`: it is in a later one, or left the round otherwise. */
  ghost predicate Passed(x: Replica, r: nat, a: nat) {
    || (|x.log| == r && x.attempt > a)
    || (r < |x.log| == |x.past.how| && (x.past.how[r].ByReceipts? ==> x.past.how[r].attempt > a))
  }

  lemma StepPassed(c: Config, nodes: seq<Replica>, x: Replica, m: Move, r: nat, a: nat)
    requires Enabled(c, nodes, x, m) && |x.log| == |x.past.how| && Passed(x, r, a)
    ensures Passed(Next(c, nodes, x, m), r, a)
  {
  }

  lemma {:induction false} StaysPassed(c: Config, trace: seq<seq<Replica>>, t: nat, u: nat, y: nat, r: nat, a: nat)
    requires c.s.n <= 256 && Run(c, trace) && t <= u < |trace| && y < |trace[t]| && Passed(trace[t][y], r, a)
    ensures |trace[u]| == |trace[t]| && Passed(trace[u][y], r, a)
    decreases u
  {
    hide Passed;
    hide Enabled;
    hide Next;
    if t < u {
      StaysPassed(c, trace, t, u - 1, y, r, a);
      RunInv(c, trace, u - 1);
      assert NodeOk(c, trace[u - 1], y);
      assert Steps(c, trace[u - 1], trace[u - 1 + 1]);
      var i: nat, m: Move :| Moved(c, trace[u - 1], i, m, trace[u]);
      if i == y { StepPassed(c, trace[u - 1], trace[u - 1][y], m, r, a); }
    }
  }

  lemma {:induction false} StillGrows(c: Config, trace: seq<seq<Replica>>, t: nat, u: nat, i: nat)
    requires c.s.n <= 256 && Run(c, trace) && t <= u < |trace| && i < |trace[t]|
    ensures |trace[u]| == |trace[t]|
    ensures trace[t][i].log <= trace[u][i].log && trace[t][i].past.how <= trace[u][i].past.how
    decreases u
  {
    hide Inv;
    hide Moved;
    hide Extends;
    if t < u {
      StillGrows(c, trace, t, u - 1, i);
      RunInv(c, trace, u - 1);
      assert Steps(c, trace[u - 1], trace[u - 1 + 1]);
      StepsKeep(c, trace[u - 1], trace[u]);
      assert Grows(trace[u - 1][i], trace[u][i]);
    }
  }

  /** A receipt commit of a seat that was in leaves a seat that went past that attempt only the fold, and that
      only against the seat to act itself. */
  lemma OnlyTheFold(c: Config, nodes: seq<Replica>, x: nat, y: nat, r: nat)
    requires Inv(c, nodes) && SharedPrefix(nodes, x, y, r) && CommittedByReceipts(nodes, x, r)
    requires !Out(c.s, nodes[x].log[..r], x) && !Out(c.s, nodes[x].log[..r], y)
    requires r < |nodes[y].log| && Passed(nodes[y], r, CommitSlot(nodes, x, r).1)
    ensures CommittedByFold(nodes, y, r) && x == Mover(c.s, nodes[x].log[..r])
  {
    hide Inv;
    hide Out;
    CommitKinds(c, nodes, y, r);
    if CommittedByReceipts(nodes, y, r) {
      ReceiptCommitsAgree(c, nodes, x, y, r);
    } else {
      MixedCommit(c, nodes, x, y, r);
    }
  }

  /** A seat that was in, not to act, committed a round by receipts. Then a seat that was in and has gone past
      that attempt, still in that round on the same history, keeps its log as it is for the rest of the run. */
  lemma LeftForGood(c: Config, trace: seq<seq<Replica>>, t: nat, u: nat, x: nat, y: nat, r: nat)
    requires c.s.n <= 256 && Run(c, trace) && t <= u < |trace| && SharedPrefix(trace[t], x, y, r)
    requires CommittedByReceipts(trace[t], x, r) && x != Mover(c.s, trace[t][x].log[..r])
    requires !Out(c.s, trace[t][x].log[..r], x) && !Out(c.s, trace[t][x].log[..r], y)
    requires |trace[t][y].log| == r && trace[t][y].attempt > CommitSlot(trace[t], x, r).1
    ensures |trace[u]| == |trace[t]| && trace[u][y].log == trace[t][y].log
  {
    hide Run;
    hide Out;
    hide Mover;
    StillGrows(c, trace, t, u, x);
    StillGrows(c, trace, t, u, y);
    StaysPassed(c, trace, t, u, y, r, CommitSlot(trace[t], x, r).1);
    RunInv(c, trace, u);
    LengthsMatch(c, trace[u], x);
    assert trace[u][x].log[..r] == trace[t][x].log[..r] && trace[u][y].log[..r] == trace[t][y].log;
    if |trace[u][y].log| > r { OnlyTheFold(c, trace[u], x, y, r); }
  }

  lemma LengthsMatch(c: Config, nodes: seq<Replica>, i: nat)
    requires Inv(c, nodes) && i < |nodes|
    ensures |nodes[i].log| == |nodes[i].past.how|
  {
    assert NodeOk(c, nodes, i);
  }

  /** So one missed deadline stops the hand: from then on nobody gets past round `r + 1` without having folded
      the seat left behind. */
  lemma HandStops(c: Config, trace: seq<seq<Replica>>, t: nat, u: nat, x: nat, y: nat, r: nat, i: nat)
    requires c.s.n <= 256 && Run(c, trace) && t <= u < |trace| && SharedPrefix(trace[t], x, y, r)
    requires CommittedByReceipts(trace[t], x, r) && x != Mover(c.s, trace[t][x].log[..r])
    requires !Out(c.s, trace[t][x].log[..r], x) && !Out(c.s, trace[t][x].log[..r], y)
    requires |trace[t][y].log| == r && trace[t][y].attempt > CommitSlot(trace[t], x, r).1 && i < |trace[u]|
    ensures |trace[u][i].log| <= r + 1 || Out(c.s, trace[u][i].log, y)
  {
    LeftForGood(c, trace, t, u, x, y, r);
    if !Out(c.s, trace[u][i].log, y) { AtMostOneAhead(c, trace, u, i, y); }
  }

  // ----------------------------------------------------------- a seat still in the committed round

  /** Seat `x` was in and committed round `r` by receipts; seat `y`, in after that round, is still at it, on the
      same history, and runs. */
  ghost predicate Behind(c: Config, nodes: seq<Replica>, x: nat, y: nat, r: nat) {
    && CommittedByReceipts(nodes, x, r) && !Out(c.s, nodes[x].log[..r], x)
    && y < |nodes| && y != x && nodes[y].log == nodes[x].log[..r] && !nodes[y].phase.Stopped?
    && !Out(c.s, nodes[x].log[..r + 1], y)
  }

  /** Every other seat in after a receipt commit hosted a receipt for it. */
  lemma HostedByIn(c: Config, nodes: seq<Replica>, x: nat, j: nat, r: nat)
    requires Inv(c, nodes) && CommittedByReceipts(nodes, x, r) && j < |nodes| && !Out(c.s, nodes[x].log[..r + 1], j)
    ensures CommitSlot(nodes, x, r) in nodes[j].past.hosted
  {
    assert NodeOk(c, nodes, x);
    assert CommittedOk(nodes[x], r);
    assert RoundBacked(c, nodes, nodes[x], r);
    if j != x { assert HasHosted(nodes, j, CommitSlot(nodes, x, r)); }
  }

  /** The seat behind is in that attempt or a later one, and if in that one, it is collecting that entry. */
  lemma Collects(c: Config, nodes: seq<Replica>, x: nat, y: nat, r: nat)
    requires Inv(c, nodes) && Behind(c, nodes, x, y, r)
    ensures var k := CommitSlot(nodes, x, r);
            && k.1 <= nodes[y].attempt
            && (k.1 == nodes[y].attempt ==> nodes[y].phase.Collecting? && nodes[y].phase.entry == nodes[x].log[r])
  {
    hide Out;
    hide Mover;
    var k := CommitSlot(nodes, x, r);
    HostedByIn(c, nodes, x, y, r);
    assert NodeOk(c, nodes, y);
    assert HostedOk(nodes[y], k);
    HostedIsProposal(c, nodes, y, k);
    CommitIsProposal(c, nodes, x, r);
    assert nodes[y].log[..r] == nodes[x].log[..r];
  }

  /** A seat whose receipt the one behind waits for has the same history. */
  lemma SamePast(c: Config, nodes: seq<Replica>, x: nat, y: nat, j: nat, r: nat)
    requires Inv(c, nodes) && Behind(c, nodes, x, y, r) && j < |nodes| && j != x
    requires !Out(c.s, nodes[x].log[..r], j) && r <= |nodes[j].log|
    ensures nodes[j].log[..r] == nodes[x].log[..r]
  {
    hide Inv;
    hide Out;
    hide Mover;
    hide Foldable;
    var a, b := nodes[x].log[..r], nodes[j].log[..r];
    var q := FirstDifference(a, b);
    if q < r {
      assert nodes[x].log[..q] == a[..q] && nodes[j].log[..q] == b[..q];
      InEarlier(c, nodes, x, q, r, x);
      InEarlier(c, nodes, x, q, r, j);
      DivergenceAt(c, nodes, x, j, q);
      if ProposerVersusFold(c, nodes, x, j, q) {
        FoldKnownToAll(c, nodes, x, y, j, r, q);
      } else {
        FoldedIsOut(c, nodes, x, q);
        InEarlier(c, nodes, x, q + 1, r, j);
      }
    }
  }

  /** Nobody folds a seat in a round that another seat, in then, closed by receipts. */
  lemma FoldKnownToAll(c: Config, nodes: seq<Replica>, x: nat, y: nat, j: nat, r: nat, q: nat)
    requires Inv(c, nodes) && Behind(c, nodes, x, y, r) && q < r && SharedPrefix(nodes, x, j, q)
    ensures !(CommittedByReceipts(nodes, x, q) && CommittedByFold(nodes, j, q) && nodes[j].log[q].player == x)
  {
    hide Inv;
    hide Out;
    hide Mover;
    InEarlier(c, nodes, x, q, r + 1, y);
    if CommittedByReceipts(nodes, x, q) && CommittedByFold(nodes, j, q) && nodes[j].log[q].player == x {
      CoSignerAttested(c, nodes, j, y, q);
      AttestedMeansFold(c, nodes, y, q);
      assert nodes[y].log[q] == nodes[x].log[q];
      KindShows(c, nodes, x, q);
      KindShows(c, nodes, y, q);
      CommitKinds(c, nodes, y, q);
    }
  }

  /** While the seat behind is in the committed attempt, the seats it waits for are where the other one is, or
      still in that round. */
  lemma SameRound(c: Config, nodes: seq<Replica>, x: nat, y: nat, j: nat, r: nat)
    requires Inv(c, nodes) && Behind(c, nodes, x, y, r) && nodes[y].attempt == CommitSlot(nodes, x, r).1
    requires j < |nodes| && !Out(c.s, nodes[x].log[..r + 1], j) && r < |nodes[j].log|
    ensures nodes[j].log[..r + 1] == nodes[x].log[..r + 1]
  {
    hide Inv;
    hide Out;
    hide Mover;
    if j != x {
      InEarlier(c, nodes, x, r, r + 1, j);
      InEarlier(c, nodes, x, r, r + 1, y);
      SamePast(c, nodes, x, y, j, r);
      CommitKinds(c, nodes, j, r);
      if CommittedByReceipts(nodes, j, r) {
        ReceiptCommitsAgree(c, nodes, x, j, r);
      } else {
        MixedCommit(c, nodes, x, j, r);
        CoSignerAttested(c, nodes, j, y, r);
        Collects(c, nodes, x, y, r);
        AttestedIsNotCollecting(c, nodes, y, r);
      }
      assert nodes[x].log[..r + 1] == nodes[x].log[..r] + [nodes[x].log[r]];
      assert nodes[j].log[..r + 1] == nodes[j].log[..r] + [nodes[j].log[r]];
    }
  }

  lemma AttestedIsNotCollecting(c: Config, nodes: seq<Replica>, y: nat, r: nat)
    requires Inv(c, nodes) && y < |nodes| && |nodes[y].log| == r && r in nodes[y].past.attested
    ensures !nodes[y].phase.Collecting?
  {
    assert NodeOk(c, nodes, y);
    assert AttestedOk(nodes[y], r);
  }

  /** ... and none of them closes the next round by receipts: it would need one of the seat behind. */
  lemma NextNotClosed(c: Config, nodes: seq<Replica>, x: nat, y: nat, j: nat, r: nat)
    requires Inv(c, nodes) && Behind(c, nodes, x, y, r) && nodes[y].attempt == CommitSlot(nodes, x, r).1
    requires j < |nodes| && j != y && !Out(c.s, nodes[x].log[..r + 1], j)
    ensures !CommittedByReceipts(nodes, j, r + 1)
  {
    hide Inv;
    hide Out;
    if CommittedByReceipts(nodes, j, r + 1) {
      SameRound(c, nodes, x, y, j, r);
      PeerTookPart(c, nodes, j, y, r + 1);
      ReachedByPart(c, nodes, y, CommitSlot(nodes, j, r + 1));
    }
  }

  /** In every run, a seat still in the attempt that another one committed is collecting that very entry, and
      every receipt it waits for is still hosted. */
  lemma NothingLost(c: Config, trace: seq<seq<Replica>>, t: nat, x: nat, y: nat, r: nat, j: nat)
    requires c.s.n <= 256 && Run(c, trace) && t < |trace| && Behind(c, trace[t], x, y, r)
    requires trace[t][y].attempt == CommitSlot(trace[t], x, r).1
    ensures trace[t][y].phase.Collecting? && trace[t][y].phase.entry == trace[t][x].log[r]
    ensures j < |trace[t]| && j != y && !Out(c.s, trace[t][y].log + [trace[t][y].phase.entry], j) ==>
              trace[t][y].Slot() in trace[t][j].receipts
  {
    hide Run;
    hide Out;
    hide Inv;
    var nodes := trace[t];
    RunInv(c, trace, t);
    Collects(c, nodes, x, y, r);
    assert nodes[x].log[..r + 1] == nodes[y].log + [nodes[x].log[r]];
    if j < |nodes| && j != y && !Out(c.s, nodes[x].log[..r + 1], j) {
      HostedByIn(c, nodes, x, j, r);
      RunHostsExactly(c, trace, t, j);
      NextNotClosed(c, nodes, x, y, j, r);
    }
  }

  // ------------------------------------------------------------------- whether it can still commit

  /** The run goes on as `run`. */
  ghost predicate Continues(c: Config, trace: seq<seq<Replica>>, run: seq<seq<Replica>>) {
    trace != [] && trace <= run && Run(c, run)
  }

  ghost predicate Commits(run: seq<seq<Replica>>, y: nat, r: nat, e: Entry) {
    run != [] && y < |Last(run)| && r < |Last(run)[y].log| && Last(run)[y].log[r] == e
  }

  /** In some continuation of the run, `y` commits `e` in round `r`. */
  ghost predicate MayCommit(c: Config, trace: seq<seq<Replica>>, y: nat, r: nat, e: Entry) {
    exists run :: Continues(c, trace, run) && Commits(run, y, r, e)
  }

  /** The polls of `y` for the receipts of the seats below `k` succeed. */
  lemma {:induction false} SeesAll(c: Config, trace: seq<seq<Replica>>, y: nat, log: seq<Entry>, attempt: nat, e: Entry,
                                   k: nat)
    returns (run: seq<seq<Replica>>, got: set<nat>)
    requires trace != [] && Run(c, trace) && y < |Last(trace)| && k <= |Last(trace)| == c.s.n
    requires |log| < TWO64 && !Over(c.s, log) && Last(trace)[y].phase.Collecting?
    requires At(Last(trace)[y], y, log, attempt, Collecting(e, Last(trace)[y].phase.got))
    requires forall j :: 0 <= j < |Last(trace)| && j != y && !Out(c.s, log + [e], j) ==>
               (|log|, attempt) in Last(trace)[j].receipts
    ensures Continues(c, trace, run) && Only(Last(trace), Last(run), y)
    ensures At(Last(run)[y], y, log, attempt, Collecting(e, got))
    ensures forall j :: 0 <= j < k && j != y && !Out(c.s, log + [e], j) ==> j in got
    decreases k
  {
    hide Run;
    hide Out;
    hide Over;
    if k == 0 {
      run, got := trace, Last(trace)[y].phase.got;
    } else {
      run, got := SeesAll(c, trace, y, log, attempt, e, k - 1);
      if k - 1 != y && !Out(c.s, log + [e], k - 1) {
        run := Sees(c, run, y, k - 1, log, attempt, e, got);
        got := got + {k - 1};
      }
    }
  }

  lemma RoundFits(c: Config, nodes: seq<Replica>, x: nat, r: nat)
    requires Inv(c, nodes) && CommittedByReceipts(nodes, x, r)
    ensures r < TWO64 && !Over(c.s, nodes[x].log[..r])
  {
    assert NodeOk(c, nodes, x);
    assert RoundBacked(c, nodes, nodes[x], r);
    OpenBefore(c, nodes[x], r);
    assert nodes[x].log[r].round == r;
  }

  lemma CatchesUp(c: Config, trace: seq<seq<Replica>>, x: nat, y: nat, r: nat)
    requires c.s.n <= 256 && trace != [] && Run(c, trace) && Behind(c, Last(trace), x, y, r)
    requires Last(trace)[y].attempt == CommitSlot(Last(trace), x, r).1
    ensures MayCommit(c, trace, y, r, Last(trace)[x].log[r])
  {
    hide Run;
    hide Out;
    hide Over;
    hide NodeOk;
    var nodes := Last(trace);
    var e := nodes[x].log[r];
    RunInv(c, trace, |trace| - 1);
    SeatOf(c, nodes, y);
    RoundFits(c, nodes, x, r);
    NothingLost(c, trace, |trace| - 1, x, y, r, y);
    forall j | 0 <= j < |nodes| && j != y && !Out(c.s, nodes[y].log + [e], j)
      ensures (r, nodes[y].attempt) in nodes[j].receipts
    {
      NothingLost(c, trace, |trace| - 1, x, y, r, j);
    }
    var run, got := SeesAll(c, trace, y, nodes[y].log, nodes[y].attempt, e, |nodes|);
    run := Closes(c, run, y, nodes[y].log, nodes[y].attempt, e, got);
    assert Continues(c, trace, run) && Commits(run, y, r, e);
  }

  lemma SeatOf(c: Config, nodes: seq<Replica>, y: nat)
    requires Inv(c, nodes) && y < |nodes|
    ensures nodes[y].seat == y
  {
    assert NodeOk(c, nodes, y);
  }

  lemma TooLate(c: Config, trace: seq<seq<Replica>>, run: seq<seq<Replica>>, x: nat, y: nat, r: nat)
    requires c.s.n <= 256 && trace != [] && Continues(c, trace, run) && Behind(c, Last(trace), x, y, r)
    requires Last(trace)[y].attempt > CommitSlot(Last(trace), x, r).1
    ensures !Commits(run, y, r, Last(trace)[x].log[r])
  {
    hide Run;
    hide Out;
    hide Inv;
    hide Mover;
    var t, u := |trace| - 1, |run| - 1;
    assert run[t] == trace[t];
    var nodes := run[u];
    StillGrows(c, run, t, u, x);
    StillGrows(c, run, t, u, y);
    StaysPassed(c, run, t, u, y, r, CommitSlot(Last(trace), x, r).1);
    RunInv(c, run, t);
    InEarlier(c, run[t], x, r, r + 1, y);
    RunInv(c, run, u);
    LengthsMatch(c, nodes, x);
    assert nodes[x].log[..r] == run[t][x].log[..r] && nodes[y].log[..r] == run[t][y].log;
    if r < |nodes[y].log| {
      OnlyTheFold(c, nodes, x, y, r);
      KindShows(c, nodes, x, r);
      KindShows(c, nodes, y, r);
      CommitKinds(c, nodes, y, r);
    }
  }

  /** Whether an entry that a seat which was in has committed by receipts can still be committed by a seat that
      is in after it and still at that round on the same history: it can if and only if that seat is still in
      the committed attempt. */
  lemma MayCommitIff(c: Config, trace: seq<seq<Replica>>, x: nat, y: nat, r: nat)
    requires c.s.n <= 256 && trace != [] && Run(c, trace) && Behind(c, Last(trace), x, y, r)
    ensures MayCommit(c, trace, y, r, Last(trace)[x].log[r]) <==>
            Last(trace)[y].attempt == CommitSlot(Last(trace), x, r).1
  {
    hide Run;
    hide Out;
    hide Inv;
    hide Commits;
    hide Continues;
    RunInv(c, trace, |trace| - 1);
    Collects(c, Last(trace), x, y, r);
    if Last(trace)[y].attempt == CommitSlot(Last(trace), x, r).1 {
      CatchesUp(c, trace, x, y, r);
    } else if MayCommit(c, trace, y, r, Last(trace)[x].log[r]) {
      var run :| Continues(c, trace, run) && Commits(run, y, r, Last(trace)[x].log[r]);
      TooLate(c, trace, run, x, y, r);
    }
  }

  /** A replica that has stopped never moves. */
  lemma {:induction false} StaysStopped(c: Config, trace: seq<seq<Replica>>, t: nat, u: nat, y: nat)
    requires Run(c, trace) && t <= u < |trace| && y < |trace[t]| && trace[t][y].phase.Stopped?
    ensures |trace[u]| == |trace[t]| && trace[u][y] == trace[t][y]
    decreases u
  {
    hide Next;
    hide Over;
    hide Out;
    if t < u {
      StaysStopped(c, trace, t, u - 1, y);
      assert Steps(c, trace[u - 1], trace[u - 1 + 1]);
      var i: nat, m: Move :| Moved(c, trace[u - 1], i, m, trace[u]);
    }
  }

  /** The seat has committed the entry, or is running and still in the attempt in which it was committed. */
  ghost predicate Reached(nodes: seq<Replica>, x: nat, y: nat, r: nat)
    requires CommittedByReceipts(nodes, x, r) && y < |nodes| && r <= |nodes[y].log|
  {
    if r < |nodes[y].log| then nodes[y].log[r] == nodes[x].log[r]
    else !nodes[y].phase.Stopped? && nodes[y].attempt == CommitSlot(nodes, x, r).1
  }

  /** Committed everywhere or nowhere, exactly: an entry that a seat which was in has committed by receipts is
      or can still be committed by a seat that is in after it, on the same history, if and only if that seat has
      committed it or is still in that attempt. */
  lemma EverywhereIff(c: Config, trace: seq<seq<Replica>>, x: nat, y: nat, r: nat)
    requires c.s.n <= 256 && trace != [] && Run(c, trace) && SharedPrefix(Last(trace), x, y, r)
    requires CommittedByReceipts(Last(trace), x, r) && !Out(c.s, Last(trace)[x].log[..r], x)
    requires !Out(c.s, Last(trace)[x].log[..r + 1], y)
    ensures MayCommit(c, trace, y, r, Last(trace)[x].log[r]) <==> Reached(Last(trace), x, y, r)
  {
    hide Run;
    hide Out;
    var nodes := Last(trace);
    var e := nodes[x].log[r];
    if r == |nodes[y].log| && !nodes[y].phase.Stopped? {
      assert nodes[y].log == nodes[y].log[..r];
      MayCommitIff(c, trace, x, y, r);
    } else {
      forall run | Continues(c, trace, run) ensures Commits(run, y, r, e) <==> Reached(nodes, x, y, r) {
        assert run[|trace| - 1] == nodes;
        StillGrows(c, run, |trace| - 1, |run| - 1, y);
        if nodes[y].phase.Stopped? { StaysStopped(c, run, |trace| - 1, |run| - 1, y); }
      }
      assert Continues(c, trace, trace);
    }
  }

  // --------------------------------------------------------------------------------- such a run

  /** Round 0 of three seats: seat 0 folds, all three host receipts, seats 1 and 0 commit, and the deadline of
      seat 2 fires. */
  lemma DeadlineMissed() returns (trace: seq<seq<Replica>>)
    ensures trace != [] && Run(Trio(), trace) && |Last(trace)| == 3
    ensures Last(trace)[0].log == Last(trace)[1].log == [Fold0()] && At(Last(trace)[2], 2, [], 1, Open)
  {
    hide Over;
    hide Out;
    hide Mover;
    hide Proposable;
    hide Enabled;
    hide Next;
    hide Run;
    hide Trio;
    hide Fold0;
    var c := Trio();
    TrioSize();
    FirstTable();
    SecondRound();
    trace := FoldOffered();
    assert [] + [Fold0()] == [Fold0()];
    trace := Sees(c, trace, 1, 2, [], 0, Fold0(), {});
    trace := Closes(c, trace, 1, [], 0, Fold0(), {2});
    trace := Sees(c, trace, 0, 1, [], 0, Fold0(), {});
    trace := Sees(c, trace, 0, 2, [], 0, Fold0(), {1});
    trace := Closes(c, trace, 0, [], 0, Fold0(), {1} + {2});
    trace := Expires(c, trace, 2, [], 0, Collecting(Fold0(), {}));
  }

  /** A run of three seats, all in when the round starts, in which two commit an entry and the third never does,
      nor anything else, however the run goes on. */
  lemma SeatLeftBehind() returns (trace: seq<seq<Replica>>)
    ensures Trio().s.Playable() && Trio().s.Ideal() && trace != [] && Run(Trio(), trace) && |Last(trace)| == 3
    ensures Last(trace)[0].log == Last(trace)[1].log == [Fold0()]
    ensures forall run :: Continues(Trio(), trace, run) ==> |Last(run)| == 3 && Last(run)[2].log == []
  {
    hide Out;
    hide Mover;
    hide Inv;
    hide Run;
    hide Trio;
    hide Fold0;
    var c := Trio();
    TrioSize();
    TrioIdeal();
    FirstTable();
    SecondRound();
    trace := DeadlineMissed();
    var nodes := Last(trace);
    RunInv(c, trace, |trace| - 1);
    KindShows(c, nodes, 1, 0);
    assert nodes[1].log[..0 + 1] == [Fold0()] && nodes[1].log[..0] == [];
    InEarlier(c, nodes, 1, 0, 1, 1);
    InEarlier(c, nodes, 1, 0, 1, 2);
    Collects(c, nodes, 1, 2, 0);
    forall run | Continues(c, trace, run) ensures |Last(run)| == 3 && Last(run)[2].log == [] {
      assert run[|trace| - 1] == nodes;
      LeftForGood(c, run, |trace| - 1, |run| - 1, 1, 2, 0);
    }
  }
}
