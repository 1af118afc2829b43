/** Exactly what a replica hosts at any moment of any run: its own proposal while the attempt lasts, its
    receipts and attestations until the next round is closed by receipts (cleanupAttempt and the prefix deletions
    in internal/round/runner.go). */
module RoundFiles {
  import opened Consensus

  /** The round after `r` was committed by receipts, which is when the files of `r` go. */
  ghost predicate Forgotten(x: Replica, r: nat) { r + 1 < |x.past.how| && x.past.how[r + 1].ByReceipts? }

  /** A proposal is hosted for the current attempt only, and throughout it by the seat to act. */
  ghost predicate ProposalsExact(c: Config, x: Replica) {
    && (forall k :: k in x.proposals ==> k == x.Slot() && !x.phase.Open? && !x.phase.Exhausted? && !x.phase.Folding?)
    && (x.phase.Holding? || x.phase.Collecting? ==>
          x.seat == Mover(c.s, x.log) ==> x.Slot() in x.proposals && x.proposals[x.Slot()] == x.phase.entry)
  }

  /** Of all receipts ever hosted, exactly those of forgotten rounds are gone. */
  ghost predicate ReceiptsExact(x: Replica) {
    && (forall k :: k in x.past.hosted ==> k.0 <= |x.log|)
    && (forall k :: k in x.receipts <==> k in x.past.hosted && !Forgotten(x, k.0))
  }

  /** The same for attestations. */
  ghost predicate AttestsExact(x: Replica) {
    && (forall r :: r in x.past.attested ==> r <= |x.log|)
    && (forall r :: r in x.attests <==> r in x.past.attested && !Forgotten(x, r))
  }

  /** An attempt is one of the allowed number, and the auto-fold starts when that number is used up. */
  ghost predicate AttemptsExact(c: Config, x: Replica) {
    c.maxAttempts > 0 ==>
      && (x.phase.Open? || x.phase.Holding? || x.phase.Collecting? ==> x.attempt < c.maxAttempts)
      && (x.phase.Exhausted? || x.phase.Folding? ==> x.attempt == c.maxAttempts)
  }

  ghost predicate HostsExactly(c: Config, x: Replica) {
    |x.log| == |x.past.how| && ProposalsExact(c, x) && ReceiptsExact(x) && AttestsExact(x) && AttemptsExact(c, x)
  }

  lemma StepProposals(c: Config, nodes: seq<Replica>, x: Replica, m: Move)
    requires Enabled(c, nodes, x, m) && ProposalsExact(c, x)
    ensures ProposalsExact(c, Next(c, nodes, x, m))
  {
    hide Over;
    hide Out;
    hide Mover;
    hide Proposable;
    hide Foldable;
    hide Attestation;
    hide Expected;
  }

  lemma StepReceipts(c: Config, nodes: seq<Replica>, x: Replica, m: Move)
    requires Enabled(c, nodes, x, m) && |x.log| == |x.past.how| && ReceiptsExact(x)
    ensures ReceiptsExact(Next(c, nodes, x, m))
  {
    hide Over;
    hide Out;
    hide Mover;
    hide Proposable;
    hide Foldable;
    hide Attestation;
    hide Expected;
  }

  lemma StepAttests(c: Config, nodes: seq<Replica>, x: Replica, m: Move)
    requires Enabled(c, nodes, x, m) && |x.log| == |x.past.how| && AttestsExact(x)
    ensures AttestsExact(Next(c, nodes, x, m))
  {
    hide Over;
    hide Out;
    hide Mover;
    hide Proposable;
    hide Foldable;
    hide Attestation;
    hide Expected;
  }

  lemma StepAttempts(c: Config, nodes: seq<Replica>, x: Replica, m: Move)
    requires Enabled(c, nodes, x, m) && |x.log| == |x.past.how| && AttemptsExact(c, x)
    ensures AttemptsExact(c, Next(c, nodes, x, m))
    ensures |Next(c, nodes, x, m).log| == |Next(c, nodes, x, m).past.how|
  {
    hide Over;
    hide Out;
    hide Mover;
    hide Proposable;
    hide Foldable;
    hide Attestation;
    hide Expected;
  }

  lemma FreshHostsExactly(c: Config, j: nat)
    ensures HostsExactly(c, Fresh(j))
  {
  }

  /** In every state of every run: a proposal is hosted for the replica's own round and attempt only; a receipt or
      an attestation is hosted from the moment it is made until the next round is closed by receipts; and there are
      never more attempts than allowed. */
  lemma {:induction false} RunHostsExactly(c: Config, trace: seq<seq<Replica>>, t: nat, j: nat)
    requires Run(c, trace) && t < |trace| && j < |trace[t]|
    ensures HostsExactly(c, trace[t][j])
    decreases t
  {
    hide ProposalsExact;
    hide ReceiptsExact;
    hide AttestsExact;
    hide AttemptsExact;
    hide Enabled;
    hide Next;
    if t == 0 {
      FreshHostsExactly(c, j);
    } else {
      assert Steps(c, trace[t - 1], trace[t - 1 + 1]);
      var i: nat, m: Move :| Moved(c, trace[t - 1], i, m, trace[t]);
      RunHostsExactly(c, trace, t - 1, j);
      if i == j {
        StepProposals(c, trace[t - 1], trace[t - 1][j], m);
        StepReceipts(c, trace[t - 1], trace[t - 1][j], m);
        StepAttests(c, trace[t - 1], trace[t - 1][j], m);
        StepAttempts(c, trace[t - 1], trace[t - 1][j], m);
      }
    }
  }
}
