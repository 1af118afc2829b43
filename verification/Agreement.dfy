/** What every run of the round protocol guarantees: where logs can differ, what stays hosted, and
    that every committed log is an accepted, bounded one. */
module Agreement {
  import opened Entries
  import opened Betting
  import opened LogRules
  import opened BettingProofs
  import opened Consensus
  import opened ConsensusInv

  // ------------------------------------------------------------------ folds only accumulate

  lemma FoldedByStep(t: Table, p: nat, a: Action, seat: nat)
    requires t.Shaped(|t.stacks|) && p < |t.stacks| && seat < |t.stacks|
    ensures t.folded[seat] ==> Betting.Step(t, p, a).folded[seat]
    ensures Betting.Step(t, p, a).folded[seat] && !t.folded[seat] ==> a.kind == FOLD && p == seat
  {
  }

  lemma OutAppend(s: Session, log: seq<Entry>, e: Entry, seat: nat)
    requires Seated(log, s.n) && e.player < s.n
    ensures Out(s, log, seat) ==> Out(s, log + [e], seat)
    ensures Out(s, log + [e], seat) && !Out(s, log, seat) ==> e.action.kind == FOLD && e.player == seat
  {
    AfterAppend(log, e, s.n, s.stack);
    if seat < s.n { FoldedByStep(After(log, s.n, s.stack), e.player, e.action, seat); }
  }

  lemma {:induction false} OutPrefix(s: Session, log: seq<Entry>, k: nat, seat: nat)
    requires Seated(log, s.n) && k <= |log| && Out(s, log[..k], seat)
    ensures Out(s, log, seat)
    decreases |log|
  {
    if k == |log| {
      assert log[..k] == log;
    } else {
      var front := log[..|log| - 1];
      assert front[..k] == log[..k] && front + [log[|log| - 1]] == log;
      OutPrefix(s, front, k, seat);
      OutAppend(s, front, log[|log| - 1], seat);
    }
  }

  // -------------------------------------------------------------------------- the invariant

  ghost predicate LeftRound(nodes: seq<Replica>, j: nat, r: nat) {
    j < |nodes| && |nodes[j].log| > r
  }

  ghost predicate EveryoneLeft(c: Config, nodes: seq<Replica>, x: Replica, r: nat) {
    forall j :: 0 <= j < c.s.n && j != x.seat && !Out(c.s, x.log, j) ==> LeftRound(nodes, j, r)
  }

  /** A receipt or attestation is dropped only after every other seat still in has left its round. */
  ghost predicate Retained(c: Config, nodes: seq<Replica>, x: Replica) {
    && (forall k :: k in x.past.hosted && k !in x.receipts ==> EveryoneLeft(c, nodes, x, k.0))
    && (forall r :: r in x.past.attested && r !in x.attests ==> EveryoneLeft(c, nodes, x, r))
  }

  ghost predicate LogOk(c: Config, x: Replica) {
    Accepted(c.s, x.log) && (x.log != [] ==> !Over(c.s, x.log[..|x.log| - 1]))
  }

  ghost predicate NodeOk(c: Config, nodes: seq<Replica>, i: nat)
    requires i < |nodes|
  {
    && nodes[i].seat == i && Local(c, nodes[i]) && LogOk(c, nodes[i])
    && Backed(c, nodes, nodes[i]) && Retained(c, nodes, nodes[i])
  }

  ghost predicate Inv(c: Config, nodes: seq<Replica>) {
    c.s.n <= 256 && |nodes| == c.s.n && forall i :: 0 <= i < |nodes| ==> NodeOk(c, nodes, i)
  }

  lemma NextLogOk(c: Config, nodes: seq<Replica>, x: Replica, m: Move)
    requires c.s.n <= 256 && Enabled(c, nodes, x, m) && Local(c, x) && LogOk(c, x)
    ensures LogOk(c, Next(c, nodes, x, m))
  {
    var y := Next(c, nodes, x, m);
    if m.Commit? || m.FinishFold? {
      var e := y.log[|x.log|];
      assert y.log == x.log + [e] && y.log[..|x.log|] == x.log;
      AcceptedAppend(c.s, x.log, e);
    }
  }

  lemma EveryoneLeftMonotone(c: Config, a: seq<Replica>, b: seq<Replica>, x: Replica, r: nat)
    requires AllGrow(a, b) && EveryoneLeft(c, a, x, r)
    ensures EveryoneLeft(c, b, x, r)
  {
    forall j | 0 <= j < c.s.n && j != x.seat && !Out(c.s, x.log, j) ensures LeftRound(b, j, r) {
      assert LeftRound(a, j, r) && Grows(a[j], b[j]);
    }
  }

  lemma RetainedMonotone(c: Config, a: seq<Replica>, b: seq<Replica>, x: Replica)
    requires AllGrow(a, b) && Retained(c, a, x)
    ensures Retained(c, b, x)
  {
    forall r: nat | EveryoneLeft(c, a, x, r) ensures EveryoneLeft(c, b, x, r) { EveryoneLeftMonotone(c, a, b, x, r); }
  }

  lemma EveryoneLeftAppend(c: Config, nodes: seq<Replica>, x: Replica, y: Replica, r: nat)
    requires Accepted(c.s, x.log) && Accepted(c.s, y.log) && x.log <= y.log && x.seat == y.seat
    requires EveryoneLeft(c, nodes, x, r)
    ensures EveryoneLeft(c, nodes, y, r)
  {
    forall j | 0 <= j < c.s.n && j != y.seat && !Out(c.s, y.log, j) ensures LeftRound(nodes, j, r) {
      assert y.log[..|x.log|] == x.log;
      if Out(c.s, x.log, j) { OutPrefix(c.s, y.log, |x.log|, j); }
    }
  }

  /** Everyone whose receipt a commit needs has reached the committed round. */
  lemma CommitMeansReached(c: Config, a: seq<Replica>, i: nat, m: Move)
    requires i < |a| && Peers(c, a) && Enabled(c, a, a[i], m) && m.Commit? && Backed(c, a, a[i])
    requires |a[i].log| > 0
    ensures EveryoneLeft(c, a, Next(c, a, a[i], m), |a[i].log| - 1)
  {
    var x := a[i];
    forall j | 0 <= j < c.s.n && j != x.seat && !Out(c.s, x.log + [x.phase.entry], j)
      ensures LeftRound(a, j, |x.log| - 1)
    {
      assert HasHosted(a, j, x.Slot());
      assert HostedOk(a[j], x.Slot());
    }
  }

  lemma RetainedAppend(c: Config, b: seq<Replica>, x: Replica, y: Replica)
    requires Retained(c, b, x) && Accepted(c.s, x.log) && Accepted(c.s, y.log) && Grows(x, y)
    requires forall k :: k in y.past.hosted && k !in y.receipts ==>
               (k in x.past.hosted && k !in x.receipts) || EveryoneLeft(c, b, y, k.0)
    requires forall r :: r in y.past.attested && r !in y.attests ==>
               (r in x.past.attested && r !in x.attests) || EveryoneLeft(c, b, y, r)
    ensures Retained(c, b, y)
  {
    forall r: nat | EveryoneLeft(c, b, x, r) ensures EveryoneLeft(c, b, y, r) { EveryoneLeftAppend(c, b, x, y, r); }
  }

  lemma NextRetained(c: Config, a: seq<Replica>, i: nat, m: Move, b: seq<Replica>)
    requires Peers(c, a) && Moved(c, a, i, m, b)
    requires AllGrow(a, b) && Backed(c, a, a[i]) && Retained(c, b, a[i])
    requires Accepted(c.s, a[i].log) && Accepted(c.s, b[i].log)
    ensures Retained(c, b, b[i])
  {
    var x, y := a[i], b[i];
    assert Grows(x, y);
    if m.Commit? && |x.log| > 0 {
      CommitMeansReached(c, a, i, m);
      EveryoneLeftMonotone(c, a, b, y, |x.log| - 1);
    }
    RetainedAppend(c, b, x, y);
  }

  lemma StepKeepsNode(c: Config, a: seq<Replica>, i: nat, m: Move, b: seq<Replica>, j: nat)
    requires Inv(c, a) && Moved(c, a, i, m, b)
    requires AllGrow(a, b) && j < |b|
    ensures NodeOk(c, b, j)
  {
    assert NodeOk(c, a, j);
    BackedMonotone(c, a, b, a[j]);
    RetainedMonotone(c, a, b, a[j]);
    if j == i {
      assert Peers(c, a) by { forall k | 0 <= k < |a| ensures a[k].seat == k && Local(c, a[k]) { assert NodeOk(c, a, k); } }
      NextLocal(c, a, a[i], m);
      NextLogOk(c, a, a[i], m);
      NextBacked(c, a, i, m, b);
      NextRetained(c, a, i, m, b);
    }
  }

  lemma StepsKeep(c: Config, a: seq<Replica>, b: seq<Replica>)
    requires Inv(c, a) && Steps(c, a, b)
    ensures Inv(c, b) && AllGrow(a, b)
  {
    var i: nat, m: Move :| Moved(c, a, i, m, b);
    forall j | 0 <= j < |a| ensures Grows(a[j], b[j]) {
      assert NodeOk(c, a, i);
      if j == i { NextGrows(c, a, a[i], m); }
    }
    forall j | 0 <= j < |b| ensures NodeOk(c, b, j) { StepKeepsNode(c, a, i, m, b, j); }
  }

  lemma InitInv(c: Config, nodes: seq<Replica>)
    requires c.s.n <= 256 && Init(c, nodes)
    ensures Inv(c, nodes)
  {
    forall i | 0 <= i < |nodes| ensures NodeOk(c, nodes, i) { assert nodes[i] == Fresh(i); }
  }

  /** Every state of every run satisfies the invariant. */
  lemma {:induction false} RunInv(c: Config, trace: seq<seq<Replica>>, k: nat)
    requires c.s.n <= 256 && Run(c, trace) && k < |trace|
    ensures Inv(c, trace[k])
  {
    if k == 0 {
      InitInv(c, trace[0]);
    } else {
      RunInv(c, trace, k - 1);
      assert Steps(c, trace[k - 1], trace[k - 1 + 1]);
      StepsKeep(c, trace[k - 1], trace[k]);
    }
  }

  // ------------------------------------------------------------- one round, two replicas

  ghost predicate CommittedByReceipts(nodes: seq<Replica>, i: nat, r: nat) {
    i < |nodes| && r < |nodes[i].log| == |nodes[i].past.how| && nodes[i].past.how[r].ByReceipts?
  }

  ghost predicate CommittedByFold(nodes: seq<Replica>, i: nat, r: nat) {
    i < |nodes| && r < |nodes[i].log| == |nodes[i].past.how| && nodes[i].past.how[r].ByAutoFold?
  }

  /** The attempt a round was committed in. */
  ghost function CommitSlot(nodes: seq<Replica>, i: nat, r: nat): Slot
    requires CommittedByReceipts(nodes, i, r)
  {
    (r, nodes[i].past.how[r].attempt)
  }

  /** Two different replicas that share everything before round `r`. */
  ghost predicate SharedPrefix(nodes: seq<Replica>, i: nat, j: nat, r: nat) {
    && i < |nodes| && j < |nodes| && i != j
    && r <= |nodes[i].log| && r <= |nodes[j].log| && nodes[i].log[..r] == nodes[j].log[..r]
  }

  /** A receipt commit is of the proposal that the seat to act hosted for that very attempt. */
  lemma CommitIsProposal(c: Config, nodes: seq<Replica>, i: nat, r: nat)
    requires Inv(c, nodes) && CommittedByReceipts(nodes, i, r)
    ensures var k, p := CommitSlot(nodes, i, r), Mover(c.s, nodes[i].log[..r]);
            && k in nodes[i].past.hosted && nodes[i].past.hosted[k] == nodes[i].log[r]
            && p < |nodes| && k in nodes[p].past.proposed && nodes[p].past.proposed[k] == nodes[i].log[r]
            && nodes[i].log[r].player == p
  {
    assert NodeOk(c, nodes, i);
    var x, k := nodes[i], CommitSlot(nodes, i, r);
    assert CommittedOk(x, r);
    assert FromProposer(c, nodes, x.log, k, x.past.hosted[k]);
    assert RoundBacked(c, nodes, x, r);
  }

  lemma LogSeated(c: Config, nodes: seq<Replica>, i: nat)
    requires Inv(c, nodes) && i < |nodes|
    ensures Seated(nodes[i].log, c.s.n)
  {
    assert NodeOk(c, nodes, i);
  }

  /** Only a fold of its own takes a seat out in a round committed by receipts. */
  lemma OutByOwnFold(c: Config, nodes: seq<Replica>, i: nat, r: nat, j: nat)
    requires Inv(c, nodes) && CommittedByReceipts(nodes, i, r)
    requires !Out(c.s, nodes[i].log[..r], j) && Out(c.s, nodes[i].log[..r + 1], j)
    ensures nodes[i].log[r].player == j
  {
    hide Inv;
    hide Out;
    var x := nodes[i];
    LogSeated(c, nodes, i);
    assert x.log[..r + 1] == x.log[..r] + [x.log[r]];
    OutAppend(c.s, x.log[..r], x.log[r], j);
  }

  /** A peer that was in before the round hosted a receipt, or made the proposal, for the attempt this
      replica committed. */
  lemma PeerTookPart(c: Config, nodes: seq<Replica>, i: nat, j: nat, r: nat)
    requires Inv(c, nodes) && CommittedByReceipts(nodes, i, r) && j < |nodes| && i != j
    requires !Out(c.s, nodes[i].log[..r], j)
    ensures var k := CommitSlot(nodes, i, r); k in nodes[j].past.hosted || k in nodes[j].past.proposed
  {
    if Out(c.s, nodes[i].log[..r + 1], j) {
      OutByOwnFold(c, nodes, i, r, j);
      CommitIsProposal(c, nodes, i, r);
    } else {
      assert NodeOk(c, nodes, i);
      assert RoundBacked(c, nodes, nodes[i], r);
      assert HasHosted(nodes, j, CommitSlot(nodes, i, r));
    }
  }

  /** A replica takes no part in an attempt later than the one it commits. */
  lemma TookPartBefore(c: Config, nodes: seq<Replica>, j: nat, r: nat, k: Slot)
    requires Inv(c, nodes) && CommittedByReceipts(nodes, j, r) && k.0 == r
    requires k in nodes[j].past.hosted || k in nodes[j].past.proposed
    ensures k.1 <= CommitSlot(nodes, j, r).1
  {
    assert NodeOk(c, nodes, j);
    if k in nodes[j].past.hosted { assert HostedOk(nodes[j], k); } else { assert ProposedOk(nodes[j], k); }
  }

  /** Receipt commits of one round by two seats that were in share the attempt and the entry. */
  lemma ReceiptCommitsAgree(c: Config, nodes: seq<Replica>, i: nat, j: nat, r: nat)
    requires Inv(c, nodes) && SharedPrefix(nodes, i, j, r)
    requires CommittedByReceipts(nodes, i, r) && CommittedByReceipts(nodes, j, r)
    requires !Out(c.s, nodes[i].log[..r], i) && !Out(c.s, nodes[i].log[..r], j)
    ensures CommitSlot(nodes, i, r) == CommitSlot(nodes, j, r) && nodes[i].log[r] == nodes[j].log[r]
  {
    PeerTookPart(c, nodes, i, j, r);
    PeerTookPart(c, nodes, j, i, r);
    TookPartBefore(c, nodes, j, r, CommitSlot(nodes, i, r));
    TookPartBefore(c, nodes, i, r, CommitSlot(nodes, j, r));
    CommitIsProposal(c, nodes, i, r);
    CommitIsProposal(c, nodes, j, r);
  }

  /** A seat other than the one to act that committed a round by receipts appears among the co-signers
      of no auto-fold of that round, on any replica. */
  lemma ReceiptCommitExcludesFold(c: Config, nodes: seq<Replica>, i: nat, j: nat, r: nat)
    requires Inv(c, nodes) && CommittedByReceipts(nodes, i, r) && CommittedByFold(nodes, j, r)
    ensures forall k :: 0 <= k < |nodes[j].log[r].coSigners| ==> nodes[j].log[r].coSigners[k] != i
  {
    assert NodeOk(c, nodes, i) && NodeOk(c, nodes, j);
    assert RoundBacked(c, nodes, nodes[j], r);
    var e := nodes[j].log[r];
    forall k | 0 <= k < |e.coSigners| ensures e.coSigners[k] != i {
      assert HasAttested(nodes, e.coSigners[k], r, e.coSignatures[k]);
      assert r in nodes[i].past.attested ==> AttestedOk(nodes[i], r);
    }
  }

  /** The co-signers of an auto-folded round are the seats that were in, except the folded one. */
  lemma FoldCoSigners(c: Config, nodes: seq<Replica>, j: nat, r: nat)
    requires Inv(c, nodes) && CommittedByFold(nodes, j, r)
    ensures var e, L := nodes[j].log[r], nodes[j].log[..r];
            && e.IsAutoFold() && e.player == Mover(c.s, L) && e.round == r
            && forall seat :: seat in e.coSigners <==> 0 <= seat < c.s.n && seat != e.player && !Out(c.s, L, seat)
  {
    assert NodeOk(c, nodes, j);
    assert RoundBacked(c, nodes, nodes[j], r);
    var e, L := nodes[j].log[r], nodes[j].log[..r];
    assert e.coSigners == ExpectedAttestors(c.s, L, e.player);
  }

  /** Two replicas that auto-fold the same round of the same log append the same entry. */
  lemma FoldsAgree(c: Config, nodes: seq<Replica>, i: nat, j: nat, r: nat)
    requires Inv(c, nodes) && SharedPrefix(nodes, i, j, r)
    requires CommittedByFold(nodes, i, r) && CommittedByFold(nodes, j, r)
    ensures nodes[i].log[r] == nodes[j].log[r]
  {
    assert NodeOk(c, nodes, i) && NodeOk(c, nodes, j);
    assert RoundBacked(c, nodes, nodes[i], r) && RoundBacked(c, nodes, nodes[j], r);
    var e, f := nodes[i].log[r], nodes[j].log[r];
    assert e.coSigners == f.coSigners;
    forall k | 0 <= k < |e.coSigners| ensures e.coSignatures[k] == f.coSignatures[k] {
      assert HasAttested(nodes, e.coSigners[k], r, e.coSignatures[k]);
      assert HasAttested(nodes, f.coSigners[k], r, f.coSignatures[k]);
    }
    assert e.coSignatures == f.coSignatures;
  }

  // ----------------------------------------------------------------------- divergence

  /** Seat `p` committed its own proposal by receipts; `q` holds the co-signed auto-fold of `p`. */
  ghost predicate ProposerVersusFold(c: Config, nodes: seq<Replica>, p: nat, q: nat, r: nat) {
    && CommittedByReceipts(nodes, p, r) && CommittedByFold(nodes, q, r)
    && p == Mover(c.s, nodes[p].log[..r])
    && CommitSlot(nodes, p, r) in nodes[p].past.proposed
    && nodes[p].past.proposed[CommitSlot(nodes, p, r)] == nodes[p].log[r]
    && nodes[q].log[r].player == p && Foldable(c.s, nodes[q].log[..r], nodes[q].log[r])
  }

  lemma MixedCommit(c: Config, nodes: seq<Replica>, i: nat, j: nat, r: nat)
    requires Inv(c, nodes) && SharedPrefix(nodes, i, j, r)
    requires CommittedByReceipts(nodes, i, r) && CommittedByFold(nodes, j, r)
    requires !Out(c.s, nodes[i].log[..r], i)
    ensures ProposerVersusFold(c, nodes, i, j, r)
  {
    ReceiptCommitExcludesFold(c, nodes, i, j, r);
    FoldCoSigners(c, nodes, j, r);
    CommitIsProposal(c, nodes, i, r);
    assert NodeOk(c, nodes, j);
    assert RoundBacked(c, nodes, nodes[j], r);
  }

  lemma DivergenceAt(c: Config, nodes: seq<Replica>, i: nat, j: nat, r: nat)
    requires Inv(c, nodes) && SharedPrefix(nodes, i, j, r)
    requires r < |nodes[i].log| && r < |nodes[j].log| && nodes[i].log[r] != nodes[j].log[r]
    requires !Out(c.s, nodes[i].log[..r], i) && !Out(c.s, nodes[i].log[..r], j)
    ensures ProposerVersusFold(c, nodes, i, j, r) || ProposerVersusFold(c, nodes, j, i, r)
  {
    assert NodeOk(c, nodes, i) && NodeOk(c, nodes, j);
    if CommittedByReceipts(nodes, i, r) && CommittedByReceipts(nodes, j, r) {
      ReceiptCommitsAgree(c, nodes, i, j, r);
    } else if CommittedByReceipts(nodes, i, r) {
      MixedCommit(c, nodes, i, j, r);
    } else if CommittedByReceipts(nodes, j, r) {
      MixedCommit(c, nodes, j, i, r);
    } else {
      FoldsAgree(c, nodes, i, j, r);
    }
  }

  /** Over every interleaving of polls and deadlines: where the logs of two seats first differ, both
      seats being in before that round, one of them is the seat to act, which committed its own
      proposal by receipts, and the other holds the fully co-signed auto-fold of that seat. */
  lemma FirstDivergence(c: Config, trace: seq<seq<Replica>>, t: nat, i: nat, j: nat, r: nat)
    requires c.s.n <= 256 && Run(c, trace) && t < |trace| && SharedPrefix(trace[t], i, j, r)
    requires r < |trace[t][i].log| && r < |trace[t][j].log| && trace[t][i].log[r] != trace[t][j].log[r]
    requires !Out(c.s, trace[t][i].log[..r], i) && !Out(c.s, trace[t][i].log[..r], j)
    ensures ProposerVersusFold(c, trace[t], i, j, r) || ProposerVersusFold(c, trace[t], j, i, r)
  {
    RunInv(c, trace, t);
    DivergenceAt(c, trace[t], i, j, r);
  }

  /** A receipt commit by any seat that was in, other than the seat to act, rules out the auto-fold of that
      round on every replica with the same history. */
  lemma ReceiptCommitRulesOutFold(c: Config, trace: seq<seq<Replica>>, t: nat, i: nat, j: nat, r: nat)
    requires c.s.n <= 256 && Run(c, trace) && t < |trace| && SharedPrefix(trace[t], i, j, r)
    requires CommittedByReceipts(trace[t], i, r) && !Out(c.s, trace[t][i].log[..r], i)
    requires i != Mover(c.s, trace[t][i].log[..r])
    ensures !CommittedByFold(trace[t], j, r)
  {
    RunInv(c, trace, t);
    if CommittedByFold(trace[t], j, r) { MixedCommit(c, trace[t], i, j, r); }
  }

  /** Two seats that were in, neither of them the seat to act, never commit different entries. */
  lemma OthersNeverDisagree(c: Config, trace: seq<seq<Replica>>, t: nat, i: nat, j: nat, r: nat)
    requires c.s.n <= 256 && Run(c, trace) && t < |trace| && SharedPrefix(trace[t], i, j, r)
    requires r < |trace[t][i].log| && r < |trace[t][j].log|
    requires !Out(c.s, trace[t][i].log[..r], i) && !Out(c.s, trace[t][i].log[..r], j)
    requires i != Mover(c.s, trace[t][i].log[..r]) && j != Mover(c.s, trace[t][i].log[..r])
    ensures trace[t][i].log[r] == trace[t][j].log[r]
  {
    if trace[t][i].log[r] != trace[t][j].log[r] { FirstDivergence(c, trace, t, i, j, r); }
  }

  lemma FirstDifference(a: seq<Entry>, b: seq<Entry>) returns (r: nat)
    requires |a| == |b|
    ensures r <= |a| && a[..r] == b[..r] && (r < |a| ==> a[r] != b[r])
    ensures r == |a| <==> a == b
  {
    r := 0;
    while r < |a| && a[r] == b[r]
      invariant r <= |a| && a[..r] == b[..r]
    {
      r := r + 1;
    }
    assert a[..|a|] == a && b[..|b|] == b;
  }

  /** No round is committed after the hand is over. */
  lemma OpenBefore(c: Config, x: Replica, r: nat)
    requires LogOk(c, x) && r < |x.log|
    ensures !Over(c.s, x.log[..r])
  {
    var front := x.log[..|x.log| - 1];
    assert front[..r] == x.log[..r];
    if Over(c.s, x.log[..r]) { OverStays(front, r, c.s.n, c.s.stack); }
  }

  lemma FoldIsOut(s: Session, log: seq<Entry>, e: Entry)
    requires Seated(log, s.n) && e.player < s.n && !Over(s, log) && e.action.kind == FOLD
    ensures Out(s, log + [e], e.player)
  {
    AfterAppend(log, e, s.n, s.stack);
  }

  /** The auto-fold of a seat takes that seat out of every later state of the log. */
  lemma FoldTakesOut(s: Session, b: seq<Entry>, r: nat, p: nat)
    requires Seated(b, s.n) && r < |b| && !Over(s, b[..r])
    requires b[r].action.kind == FOLD && b[r].player == p
    ensures Out(s, b, p)
  {
    hide Out;
    assert b[..r + 1] == b[..r] + [b[r]];
    FoldIsOut(s, b[..r], b[r]);
    OutPrefix(s, b, r + 1, p);
  }

  lemma FoldedByPeer(c: Config, nodes: seq<Replica>, p: nat, q: nat, r: nat, m: nat)
    requires Inv(c, nodes) && ProposerVersusFold(c, nodes, p, q, r) && r < m <= |nodes[q].log|
    ensures Out(c.s, nodes[q].log[..m], p)
  {
    var b := nodes[q].log[..m];
    assert NodeOk(c, nodes, q);
    OpenBefore(c, nodes[q], r);
    assert b[..r] == nodes[q].log[..r];
    FoldTakesOut(c.s, b, r, p);
  }

  lemma DisagreementFolds(c: Config, nodes: seq<Replica>, i: nat, j: nat, m: nat)
    requires Inv(c, nodes) && i < |nodes| && j < |nodes| && i != j
    requires m <= |nodes[i].log| && m <= |nodes[j].log| && nodes[i].log[..m] != nodes[j].log[..m]
    requires !Out(c.s, nodes[i].log[..m], i) && !Out(c.s, nodes[i].log[..m], j)
    ensures Out(c.s, nodes[j].log[..m], i)
  {
    var a, b := nodes[i].log[..m], nodes[j].log[..m];
    assert NodeOk(c, nodes, i);
    var r := FirstDifference(a, b);
    assert nodes[i].log[..r] == a[..r] && nodes[j].log[..r] == b[..r];
    if Out(c.s, a[..r], i) { OutPrefix(c.s, a, r, i); }
    if Out(c.s, a[..r], j) { OutPrefix(c.s, a, r, j); }
    DivergenceAt(c, nodes, i, j, r);
    if ProposerVersusFold(c, nodes, i, j, r) {
      FoldedByPeer(c, nodes, i, j, r, m);
    } else {
      FoldedByPeer(c, nodes, j, i, r, m);
    }
  }

  /** Whether two logs agree as far as both reach, given that each owner is in on its own log so far:
      they do exactly when neither log has folded the other's owner. */
  lemma AgreementIff(c: Config, trace: seq<seq<Replica>>, t: nat, i: nat, j: nat, m: nat)
    requires c.s.n <= 256 && Run(c, trace) && t < |trace| && i < |trace[t]| && j < |trace[t]| && i != j
    requires m <= |trace[t][i].log| && m <= |trace[t][j].log|
    requires !Out(c.s, trace[t][i].log[..m], i) && !Out(c.s, trace[t][j].log[..m], j)
    ensures trace[t][i].log[..m] == trace[t][j].log[..m] <==>
            !Out(c.s, trace[t][i].log[..m], j) && !Out(c.s, trace[t][j].log[..m], i)
  {
    var nodes := trace[t];
    RunInv(c, trace, t);
    if nodes[i].log[..m] != nodes[j].log[..m] && !Out(c.s, nodes[i].log[..m], j) {
      DisagreementFolds(c, nodes, i, j, m);
    }
  }

  lemma InBefore(c: Config, nodes: seq<Replica>, i: nat, m: nat, seat: nat)
    requires Inv(c, nodes) && i < |nodes| && m <= |nodes[i].log| && !Out(c.s, nodes[i].log, seat)
    ensures !Out(c.s, nodes[i].log[..m], seat)
  {
    hide Out;
    assert NodeOk(c, nodes, i);
    if Out(c.s, nodes[i].log[..m], seat) { OutPrefix(c.s, nodes[i].log, m, seat); }
  }

  /** Two seats that have finished the hand, each in on its own log, with neither folded by the other, have
      the same log. */
  lemma FinishedLogsAgree(c: Config, trace: seq<seq<Replica>>, t: nat, i: nat, j: nat)
    requires c.s.n <= 256 && Run(c, trace) && t < |trace| && i < |trace[t]| && j < |trace[t]| && i != j
    requires Over(c.s, trace[t][i].log) && Over(c.s, trace[t][j].log)
    requires !Out(c.s, trace[t][i].log, i) && !Out(c.s, trace[t][i].log, j)
    requires !Out(c.s, trace[t][j].log, i) && !Out(c.s, trace[t][j].log, j)
    ensures trace[t][i].log == trace[t][j].log
  {
    hide Out;
    hide Over;
    hide Run;
    hide NodeOk;
    var nodes := trace[t];
    var a, b := nodes[i].log, nodes[j].log;
    var m := if |a| <= |b| then |a| else |b|;
    RunInv(c, trace, t);
    InBefore(c, nodes, i, m, i);
    InBefore(c, nodes, i, m, j);
    InBefore(c, nodes, j, m, i);
    InBefore(c, nodes, j, m, j);
    AgreementIff(c, trace, t, i, j, m);
    LogIsOk(c, nodes, i);
    LogIsOk(c, nodes, j);
    if |a| < |b| { assert a[..m] == a; OpenBefore(c, nodes[j], m); }
    if |b| < |a| { assert b[..m] == b; OpenBefore(c, nodes[i], m); }
    assert a[..|a|] == a && b[..|b|] == b;
  }

  // ------------------------------------------------------------- retention and soundness

  /** A peer that is still in and still working on round `r` finds every receipt and attestation that
      this replica ever hosted for round `r`. */
  lemma NothingLostTooEarly(c: Config, trace: seq<seq<Replica>>, t: nat, i: nat, j: nat)
    requires c.s.n <= 256 && Run(c, trace) && t < |trace| && i < |trace[t]| && j < |trace[t]| && i != j
    requires !Out(c.s, trace[t][i].log, j)
    ensures var x, r := trace[t][i], |trace[t][j].log|;
            && (forall a :: (r, a) in x.past.hosted ==> (r, a) in x.receipts)
            && (r in x.past.attested ==> r in x.attests && x.attests[r] == x.past.attested[r])
  {
    var nodes := trace[t];
    RunInv(c, trace, t);
    assert NodeOk(c, nodes, i);
    var x, r := nodes[i], |nodes[j].log|;
    assert !LeftRound(nodes, j, r);
    assert !EveryoneLeft(c, nodes, x, r);
  }

  /** An accepted log whose last entry was admitted in an open hand is within the bound. */
  lemma LengthBound(s: Session, log: seq<Entry>)
    requires s.Playable() && Accepted(s, log) && (log != [] ==> !Over(s, log[..|log| - 1]))
    ensures |log| <= 4 * s.n + s.n * s.n * s.stack
  {
    if log != [] {
      var front := log[..|log| - 1];
      AcceptedPrefix(s, log, |log| - 1);
      PotentialBound(s, front);
      AcceptedSound(s, front);
      OpenHasPotential(After(front, s.n, s.stack), s.n, s.stack);
    }
  }

  lemma LogIsOk(c: Config, nodes: seq<Replica>, i: nat)
    requires Inv(c, nodes) && i < |nodes|
    ensures LogOk(c, nodes[i])
  {
    assert NodeOk(c, nodes, i);
  }

  /** In every state of every run every replica's log is accepted, its table is sound, and it is no
      longer than the bound on a hand. */
  lemma RunLogsSound(c: Config, trace: seq<seq<Replica>>, t: nat, i: nat)
    requires c.s.Playable() && Run(c, trace) && t < |trace| && i < |trace[t]|
    ensures var log := trace[t][i].log;
            && Accepted(c.s, log) && Sound(After(log, c.s.n, c.s.stack), c.s.n, c.s.stack)
            && |log| <= 4 * c.s.n + c.s.n * c.s.n * c.s.stack
  {
    hide Inv;
    hide Sound;
    hide After;
    hide Accepted;
    RunInv(c, trace, t);
    LogIsOk(c, trace[t], i);
    AcceptedSeated(c.s, trace[t][i].log);
    AcceptedSound(c.s, trace[t][i].log);
    LengthBound(c.s, trace[t][i].log);
  }
}
