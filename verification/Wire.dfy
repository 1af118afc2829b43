/** What a peer without this code would have to know: the signed byte strings place by place
    (internal/game/log.go) and the spelling of the keys (internal/ephemeral/store.go). */
module Wire {
  import opened Bytes
  import opened Entries
  import opened Keys
  import opened Text

  lemma TagTexts()
    ensures AUTO_FOLD_TAG == AsBytes("auto_fold") && VERIFY_TAG == AsBytes("verify")
  {
  }

  /** A proposal signs the log, the kind of the action and its amount in eight bytes. */
  lemma ProposalLaidOut(log: seq<Entry>, a: Action)
    requires AllSized(log)
    ensures var p, n := ProposalPayload(log, a), |LogBytes(log)|;
            |p| == n + 9 && p[..n] == LogBytes(log) && p[n] == a.kind && Value(p[n + 1..]) == a.amount
  {
    hide LogBytes;
    var p, n := ProposalPayload(log, a), |LogBytes(log)|;
    assert p[n + 1..] == BigEndian(8, a.amount);
    PowersOf256();
    ValueOfBigEndian(8, a.amount);
  }

  /** An auto-fold signs the log, the word auto_fold, the round in eight bytes and the seat. */
  lemma AutoFoldLaidOut(log: seq<Entry>, round: uint64, target: byte)
    requires AllSized(log)
    ensures var p, n := AutoFoldPayload(log, round, target), |LogBytes(log)|;
            && |p| == n + 18 && p[..n] == LogBytes(log) && p[n..n + 9] == AsBytes("auto_fold")
            && Value(p[n + 9..n + 17]) == round && p[n + 17] == target
  {
    hide LogBytes;
    var p, n, t := AutoFoldPayload(log, round, target), |LogBytes(log)|, AutoFoldTail(round, target);
    assert p[n..] == t;
    assert p[n..n + 9] == t[..9] == AUTO_FOLD_TAG;
    assert p[n + 9..n + 17] == t[9..17] == BigEndian(8, round);
    TagTexts();
    PowersOf256();
    ValueOfBigEndian(8, round);
  }

  /** A receipt signs the hash of the log, the word verify and the round in eight bytes. */
  lemma ReceiptLaidOut(hash: bytes, round: uint64)
    ensures var p, n := ReceiptPayload(hash, round), |hash|;
            && |p| == n + 14 && p[..n] == hash && p[n..n + 6] == AsBytes("verify") && Value(p[n + 6..]) == round
  {
    var p, n := ReceiptPayload(hash, round), |hash|;
    assert p[n..n + 6] == VERIFY_TAG && p[n + 6..] == BigEndian(8, round);
    TagTexts();
    PowersOf256();
    ValueOfBigEndian(8, round);
  }

  /** One key of each builder, spelled out. */
  lemma KeyTexts()
    ensures Key(Proposal(12, 3)) == "proposal-12-3"
    ensures Key(Receipt(12, 3, "ann")) == "12-3_verify_ann"
    ensures Key(AutoFold(12, "ann")) == "auto_fold-12-ann"
    ensures Key(CommunityRelay(12, 3)) == "community-relay-12-3"
    ensures Key(CommunityCard(12)) == "community-card-12"
    ensures Key(ShuffleStep(3)) == "shuffle-step-3"
    ensures Key(HoleRelay(12, 3)) == "hole-relay-12-3"
    ensures Key(ShowdownClaim(3)) == "showdown-claim-3"
    ensures RoundPrefix(12) == "12-" && AutoFoldPrefix(12) == "auto_fold-12-"
  {
    assert Itoa(12) == "12" && Itoa(3) == "3";
  }
}
