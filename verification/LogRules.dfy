/** Which entries a log admits (internal/game/log.go). */
module LogRules {
  import opened Bytes
  import opened Entries
  import opened Betting

  /** What all replicas of one hand share: seats, starting stack, registered public keys by
      seat, and the signature check. */
  datatype Session = Session(n: nat, stack: uint64, keys: map<nat, nat>, verify: (nat, bytes, bytes) -> bool)
  {
    /** At least two seats, seat numbers fit a byte, and all chips together fit 64 bits. */
    ghost predicate Playable() {
      2 <= n <= 255 && n * stack < TWO64
    }

    /** Ideal signatures: 64 bytes, and each verifies under a key for one payload only. */
    ghost predicate Ideal() {
      && (forall k, p, s :: verify(k, p, s) ==> |s| == 64)
      && (forall k, p, q, s :: verify(k, p, s) && verify(k, q, s) ==> p == q)
    }
  }

  /** `VerifyProposal`, with the proposer's registered key looked up by seat. */
  function VerifyProposal(s: Session, log: seq<Entry>, e: Entry): Verdict
    requires Seated(log, s.n) && AllSized(log)
  {
    if e.round != |log| then RoundMismatch
    else if e.player != Turn(log, s.n, s.stack) then PlayerMismatch
    else if e.player !in s.keys then NoPublicKey
    else if !s.verify(s.keys[e.player], ProposalPayload(log, e.action), e.signature) then BadSignature
    else ValidateAction(After(log, s.n, s.stack), e.player, e.action)
  }

  /** Unfolded seats below `m` other than the target, ascending. */
  function Attestors(folded: seq<bool>, target: nat, m: nat): (a: seq<byte>)
    requires m <= |folded| <= 256
    ensures forall seat :: seat in a <==> 0 <= seat < m && seat != target && !folded[seat]
    ensures forall i :: 0 <= i < |a| ==> a[i] < m
    ensures forall i, j :: 0 <= i < j < |a| ==> a[i] < a[j]
  {
    if m == 0 then []
    else if m - 1 == target || folded[m - 1] then Attestors(folded, target, m - 1)
    else Attestors(folded, target, m - 1) + [m - 1]
  }

  function ExpectedAttestors(s: Session, log: seq<Entry>, target: nat): seq<byte>
    requires Seated(log, s.n) && s.n <= 256
  {
    Attestors(After(log, s.n, s.stack).folded, target, s.n)
  }

  method ExpectedAutoFoldAttestors(s: Session, log: seq<Entry>, target: nat) returns (out: seq<byte>)
    requires Seated(log, s.n) && s.n <= 256
    ensures out == ExpectedAttestors(s, log, target)
  {
    var t := Replay(log, s.n, s.stack);
    out := [];
    for seat := 0 to s.n
      invariant out == Attestors(t.folded, target, seat)
    {
      if seat == target || t.folded[seat] { continue; }
      out := out + [seat];
    }
  }

  ghost predicate CoSigned(s: Session, payload: bytes, e: Entry, i: nat)
    requires i < |e.coSigners| && i < |e.coSignatures|
  {
    e.coSigners[i] in s.keys && s.verify(s.keys[e.coSigners[i]], payload, e.coSignatures[i])
  }

  /** Exactly the expected seats, in order, each with a signature of `payload`. */
  ghost predicate AllCoSigned(s: Session, payload: bytes, expected: seq<byte>, e: Entry) {
    && e.coSigners == expected && |e.coSignatures| == |e.coSigners|
    && forall i :: 0 <= i < |e.coSigners| ==> CoSigned(s, payload, e, i)
  }

  /** An auto-fold stands exactly when it folds an unfolded seat in the current round and every
      other unfolded seat, in order, has signed that fold of this log. */
  ghost predicate AutoFoldValid(s: Session, log: seq<Entry>, e: Entry)
    requires Seated(log, s.n) && AllSized(log) && s.n <= 256
  {
    && e.round == |log| && e.IsAutoFold()
    && e.player < s.n && !After(log, s.n, s.stack).folded[e.player]
    && ExpectedAttestors(s, log, e.player) != []
    && AllCoSigned(s, AutoFoldPayload(log, e.round, e.player), ExpectedAttestors(s, log, e.player), e)
  }

  method CheckCoSignatures(s: Session, payload: bytes, expected: seq<byte>, e: Entry) returns (v: Verdict)
    ensures v == Ok <==> AllCoSigned(s, payload, expected, e)
  {
    if |e.coSigners| != |expected| || |e.coSignatures| != |e.coSigners| { return CoSignerMismatch; }
    for i := 0 to |e.coSigners|
      invariant forall j :: 0 <= j < i ==> e.coSigners[j] == expected[j] && CoSigned(s, payload, e, j)
    {
      if e.coSigners[i] != expected[i] { return CoSignerMismatch; }
      if e.coSigners[i] !in s.keys {
        assert !CoSigned(s, payload, e, i);
        return NoPublicKey;
      }
      if !s.verify(s.keys[e.coSigners[i]], payload, e.coSignatures[i]) {
        assert !CoSigned(s, payload, e, i);
        return BadSignature;
      }
    }
    return Ok;
  }

  method VerifyAutoFoldEntry(s: Session, log: seq<Entry>, e: Entry) returns (v: Verdict)
    requires Seated(log, s.n) && AllSized(log) && s.n <= 256
    ensures v == Ok <==> AutoFoldValid(s, log, e)
    ensures e.round != |log| ==> v == RoundMismatch
    ensures e.round == |log| && !e.IsAutoFold() ==> v == NotAutoFold
  {
    if e.round != |log| { return RoundMismatch; }
    if !e.IsAutoFold() { return NotAutoFold; }
    if e.player >= s.n { return OutOfRange; }
    var t := Replay(log, s.n, s.stack);
    if t.folded[e.player] { return AlreadyFolded; }
    var expected := ExpectedAutoFoldAttestors(s, log, e.player);
    if expected == [] { return NoAttestors; }
    v := CheckCoSignatures(s, AutoFoldPayload(log, e.round, e.player), expected, e);
  }

  /** The log before entry `k` admits entry `k`. */
  ghost predicate AdmitsAt(s: Session, log: seq<Entry>, k: nat)
    requires Seated(log, s.n) && AllSized(log) && s.n <= 256 && k < |log|
  {
    VerifyProposal(s, log[..k], log[k]) == Ok || AutoFoldValid(s, log[..k], log[k])
  }

  /** A log every entry of which was admitted by the log before it. */
  ghost predicate Accepted(s: Session, log: seq<Entry>) {
    && s.n <= 256 && Seated(log, s.n) && AllSized(log)
    && forall k :: 0 <= k < |log| ==> AdmitsAt(s, log, k)
  }

  lemma AdmittedSeated(s: Session, log: seq<Entry>, e: Entry)
    requires Seated(log, s.n) && AllSized(log) && s.n <= 256
    requires VerifyProposal(s, log, e) == Ok || AutoFoldValid(s, log, e)
    ensures e.player < s.n
  {
  }

  lemma AcceptedAppend(s: Session, log: seq<Entry>, e: Entry)
    requires Accepted(s, log) && e.Sized()
    requires VerifyProposal(s, log, e) == Ok || AutoFoldValid(s, log, e)
    ensures Accepted(s, log + [e])
  {
    AdmittedSeated(s, log, e);
    var l := log + [e];
    assert l[..|log|] == log;
    forall k | 0 <= k < |l| ensures AdmitsAt(s, l, k) {
      if k < |log| {
        assert AdmitsAt(s, log, k) && l[..k] == log[..k];
      }
    }
  }

  lemma AcceptedSeated(s: Session, log: seq<Entry>)
    requires Accepted(s, log)
    ensures Seated(log, s.n)
  {
  }

  lemma AcceptedPrefix(s: Session, log: seq<Entry>, m: nat)
    requires Accepted(s, log) && m <= |log|
    ensures Accepted(s, log[..m])
  {
    hide VerifyProposal;
    hide AutoFoldValid;
    var l := log[..m];
    forall k | 0 <= k < m ensures AdmitsAt(s, l, k) {
      assert AdmitsAt(s, log, k) && l[..k] == log[..k];
    }
  }

  /** An admitted entry plays a legal action, or folds an unfolded seat. */
  lemma AdmittedPlays(s: Session, log: seq<Entry>, k: nat)
    requires Accepted(s, log) && k < |log|
    ensures var t := After(log[..k], s.n, s.stack);
            && !t.folded[log[k].player] && log[k].round == k
            && (log[k].action.kind == FOLD || ValidateAction(t, log[k].player, log[k].action) == Ok)
  {
    assert AdmitsAt(s, log, k);
  }

  /** Only a fold can be entered for a seat whose turn it is not. */
  lemma NonFoldHadTurn(s: Session, log: seq<Entry>, k: nat)
    requires Accepted(s, log) && k < |log| && log[k].action.kind != FOLD
    ensures log[k].player == Turn(log[..k], s.n, s.stack)
  {
    assert AdmitsAt(s, log, k);
  }
}
