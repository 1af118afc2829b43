/** What one signature commits its signer to (internal/game/log.go, docs/whitepaper/consistency.md). */
module History {
  import opened Bytes
  import opened Entries
  import opened Betting
  import opened LogRules

  /** Replay reads encoded fields only. */
  lemma {:induction false} AfterEncoded(log: seq<Entry>, n: nat, stack: uint64)
    requires Seated(log, n)
    ensures Seated(EncodedLog(log), n) && After(EncodedLog(log), n, stack) == After(log, n, stack)
    decreases |log|
  {
    if log != [] {
      var k := |log| - 1;
      AfterEncoded(log[..k], n, stack);
      assert EncodedLog(log)[..k] == EncodedLog(log[..k]);
    }
  }

  lemma SameEncodedSameTurn(a: seq<Entry>, b: seq<Entry>, n: nat, stack: uint64)
    requires Seated(a, n) && Seated(b, n) && EncodedLog(a) == EncodedLog(b)
    ensures Turn(a, n, stack) == Turn(b, n, stack)
  {
    AfterEncoded(a, n, stack);
    AfterEncoded(b, n, stack);
  }

  lemma SelfSigned(s: Session, log: seq<Entry>, k: nat)
    requires Accepted(s, log) && k < |log| && !log[k].IsAutoFold()
    ensures log[k].round == k && log[k].player == Turn(log[..k], s.n, s.stack) && log[k].player in s.keys
    ensures s.verify(s.keys[log[k].player], ProposalPayload(log[..k], log[k].action), log[k].signature)
  {
    assert AdmitsAt(s, log, k);
  }

  lemma AutoFoldSigned(s: Session, log: seq<Entry>, k: nat, i: nat)
    requires Accepted(s, log) && k < |log| && log[k].IsAutoFold() && s.Ideal()
    requires i < |log[k].coSigners|
    ensures log[k].round == k && i < |log[k].coSignatures| && log[k].coSigners[i] in s.keys
    ensures s.verify(s.keys[log[k].coSigners[i]], AutoFoldPayload(log[..k], k, log[k].player), log[k].coSignatures[i])
  {
    assert AdmitsAt(s, log, k);
    assert AutoFoldValid(s, log[..k], log[k]);
    assert CoSigned(s, AutoFoldPayload(log[..k], k, log[k].player), log[k], i);
  }

  /** If two accepted logs both hold a self-signed entry with the same key and signature, then all
      encoded history before it is identical, and so are its action, its round and its seat, although
      round and seat are not part of the signed payload. */
  lemma SignaturePinsHistory(s: Session, a: seq<Entry>, i: nat, b: seq<Entry>, j: nat)
    requires s.Ideal() && Accepted(s, a) && Accepted(s, b)
    requires i < |a| && j < |b| && !a[i].IsAutoFold() && !b[j].IsAutoFold()
    requires a[i].player in s.keys && b[j].player in s.keys && s.keys[a[i].player] == s.keys[b[j].player]
    requires a[i].signature == b[j].signature
    ensures i == j && EncodedLog(a[..i]) == EncodedLog(b[..j])
    ensures a[i].action == b[j].action && a[i].round == b[j].round && a[i].player == b[j].player
  {
    SelfSigned(s, a, i);
    SelfSigned(s, b, j);
    ProposalPayloadInjective(a[..i], a[i].action, b[..j], b[j].action);
    SameEncodedSameTurn(a[..i], b[..j], s.n, s.stack);
  }

  /** A co-signature commits its signer to the same history, round and folded seat. */
  lemma CoSignaturePinsHistory(s: Session, a: seq<Entry>, i: nat, x: nat, b: seq<Entry>, j: nat, y: nat)
    requires s.Ideal() && Accepted(s, a) && Accepted(s, b)
    requires i < |a| && j < |b| && a[i].IsAutoFold() && b[j].IsAutoFold()
    requires x < |a[i].coSigners| && x < |a[i].coSignatures| && y < |b[j].coSigners| && y < |b[j].coSignatures|
    requires a[i].coSigners[x] in s.keys && b[j].coSigners[y] in s.keys
    requires s.keys[a[i].coSigners[x]] == s.keys[b[j].coSigners[y]] && a[i].coSignatures[x] == b[j].coSignatures[y]
    ensures i == j && EncodedLog(a[..i]) == EncodedLog(b[..j]) && a[i].player == b[j].player
  {
    AutoFoldSigned(s, a, i, x);
    AutoFoldSigned(s, b, j, y);
    AutoFoldPayloadInjective(a[..i], i, a[i].player, b[..j], j, b[j].player);
  }

  /** No signature serves both as a proposal's and as a co-signature of an auto-fold. */
  lemma SignatureKindsApart(s: Session, a: seq<Entry>, i: nat, b: seq<Entry>, j: nat, y: nat)
    requires s.Ideal() && Accepted(s, a) && Accepted(s, b)
    requires i < |a| && j < |b| && !a[i].IsAutoFold() && b[j].IsAutoFold()
    requires y < |b[j].coSigners| && y < |b[j].coSignatures|
    requires a[i].player in s.keys && b[j].coSigners[y] in s.keys
    requires s.keys[a[i].player] == s.keys[b[j].coSigners[y]]
    ensures a[i].signature != b[j].coSignatures[y]
  {
    SelfSigned(s, a, i);
    AutoFoldSigned(s, b, j, y);
    PayloadKindsDisjoint(a[..i], a[i].action, b[..j], j, b[j].player, seq(32, _ => 0), 0);
  }

  /** Every entry of an accepted log carries a 64-byte self-signature or 64-byte co-signatures. */
  lemma AcceptedSigned(s: Session, log: seq<Entry>, k: nat)
    requires s.Ideal() && Accepted(s, log) && k < |log|
    ensures Signed(log[k])
  {
    if log[k].IsAutoFold() {
      assert AdmitsAt(s, log, k);
      assert AutoFoldValid(s, log[..k], log[k]);
      forall i | 0 <= i < |log[k].coSignatures| ensures |log[k].coSignatures[i]| == 64 { AutoFoldSigned(s, log, k, i); }
    } else {
      SelfSigned(s, log, k);
    }
  }
}
