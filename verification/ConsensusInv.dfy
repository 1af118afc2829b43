/** Invariants of every run of the round protocol. */
module ConsensusInv {
  import opened Bytes
  import opened Entries
  import opened Consensus

  ghost predicate Extends<K, V>(a: map<K, V>, b: map<K, V>) {
    forall k :: k in a ==> k in b && b[k] == a[k]
  }

  /** Logs, commit history and everything ever hosted only grow. */
  ghost predicate Grows(x: Replica, y: Replica) {
    && y.seat == x.seat && x.log <= y.log && x.past.how <= y.past.how
    && Extends(x.past.proposed, y.past.proposed)
    && Extends(x.past.hosted, y.past.hosted)
    && Extends(x.past.attested, y.past.attested)
  }

  // ------------------------------------------------------------------ one replica alone

  /** Slots of the current round lie at or before the current attempt; the current one is in use
      only while its entry is at hand. */
  ghost predicate SlotUsed(x: Replica, k: Slot, current: bool) {
    && k.0 <= |x.log|
    && (k.0 == |x.log| ==> k.1 < x.attempt || (k.1 == x.attempt && (current || x.phase.Stopped?)))
    && (k.0 < |x.past.how| && x.past.how[k.0].ByReceipts? ==> k.1 <= x.past.how[k.0].attempt)
  }

  ghost predicate ProposedOk(x: Replica, k: Slot)
    requires k in x.past.proposed
  {
    && SlotUsed(x, k, (x.phase.Holding? || x.phase.Collecting?) && x.phase.entry == x.past.proposed[k])
    && x.past.proposed[k].Sized() && x.past.proposed[k].coSigners == []
  }

  ghost predicate HostedOk(x: Replica, k: Slot)
    requires k in x.past.hosted
  {
    SlotUsed(x, k, x.phase.Collecting? && x.phase.entry == x.past.hosted[k])
  }

  ghost predicate AttestedOk(x: Replica, r: nat) {
    && r <= |x.log|
    && (r == |x.log| ==> x.phase.Folding? || x.phase.Stopped?)
    && (r < |x.past.how| ==> x.past.how[r].ByAutoFold?)
  }

  ghost predicate CommittedOk(x: Replica, r: nat)
    requires r < |x.log| == |x.past.how|
  {
    x.past.how[r].ByReceipts? ==>
      var k := (r, x.past.how[r].attempt);
      k in x.past.hosted && x.past.hosted[k] == x.log[r]
  }

  ghost predicate PhaseOk(c: Config, x: Replica) {
    && (x.phase.Holding? || x.phase.Collecting? ==>
          Proposable(c.s, x.log, x.phase.entry) &&
          (x.seat == Mover(c.s, x.log) ==> x.Slot() in x.past.proposed))
    && (x.phase.Collecting? ==> x.Slot() in x.past.hosted && x.past.hosted[x.Slot()] == x.phase.entry)
  }

  ghost predicate Local(c: Config, x: Replica) {
    && |x.log| == |x.past.how|
    && Extends(x.proposals, x.past.proposed)
    && (forall k :: k in x.receipts ==> k in x.past.hosted)
    && Extends(x.attests, x.past.attested)
    && (forall k :: k in x.past.proposed ==> ProposedOk(x, k))
    && (forall k :: k in x.past.hosted ==> HostedOk(x, k))
    && (forall r :: r in x.past.attested ==> AttestedOk(x, r))
    && (forall r :: 0 <= r < |x.log| ==> CommittedOk(x, r))
    && PhaseOk(c, x)
  }

  lemma UnusedSlots(c: Config, x: Replica)
    requires Local(c, x) && !x.phase.Stopped?
    ensures x.phase.Open? ==> x.Slot() !in x.past.proposed
    ensures !x.phase.Collecting? ==> x.Slot() !in x.past.hosted
    ensures !x.phase.Folding? ==> |x.log| !in x.past.attested
  {
    assert x.Slot() in x.past.proposed ==> ProposedOk(x, x.Slot());
    assert x.Slot() in x.past.hosted ==> HostedOk(x, x.Slot());
    assert |x.log| in x.past.attested ==> AttestedOk(x, |x.log|);
  }

  lemma ExtendsOneMore<K, V>(a: map<K, V>, k: K, v: V)
    requires k !in a
    ensures Extends(a, a[k := v])
  {
  }

  /** Host, propose and attest write where nothing was; only commits touch the log. */
  lemma NextGrows(c: Config, nodes: seq<Replica>, x: Replica, m: Move)
    requires Enabled(c, nodes, x, m) && Local(c, x)
    ensures Grows(x, Next(c, nodes, x, m))
  {
    if m.Stop? { return; }
    UnusedSlots(c, x);
    ExtendsItself(x.past.proposed);
    ExtendsItself(x.past.hosted);
    ExtendsItself(x.past.attested);
    match m {
      case Propose(a, sig) =>
        ExtendsOneMore(x.past.proposed, x.Slot(), Entry(|x.log|, x.seat, a, sig, [], [], []));
      case Host => ExtendsOneMore(x.past.hosted, x.Slot(), x.phase.entry);
      case Attest(sig) => ExtendsOneMore(x.past.attested, |x.log|, sig);
      case _ =>
    }
  }

  lemma ExtendsItself<K, V>(a: map<K, V>)
    ensures Extends(a, a)
  {
  }

  /** A replica invariant that speaks of one history entry at a time is kept when every history
      entry of the new replica is fine. */
  lemma LocalSlots(c: Config, x: Replica, y: Replica)
    requires Local(c, x) && y.log == x.log && y.past.how == x.past.how
    requires y.past.proposed == x.past.proposed && y.past.hosted == x.past.hosted && y.past.attested == x.past.attested
    requires Extends(y.proposals, x.proposals) && y.receipts <= x.receipts && Extends(y.attests, x.attests)
    requires y.attempt > x.attempt || (y.attempt == x.attempt && (y.phase.Stopped? ||
               (x.phase.Open? && (y.phase.Open? || y.phase.Holding?)) ||
               (x.phase.Collecting? && y.phase.Collecting? && x.phase.entry == y.phase.entry) ||
               ((x.phase.Exhausted? || x.phase.Folding?) && y.phase.Folding?)))
    requires y.attempt > x.attempt ==> !x.phase.Folding? && !x.phase.Stopped?
    requires PhaseOk(c, y)
    ensures Local(c, y)
  {
    forall k | k in y.past.proposed ensures ProposedOk(y, k) { assert ProposedOk(x, k); }
    forall k | k in y.past.hosted ensures HostedOk(y, k) { assert HostedOk(x, k); }
    forall r | r in y.past.attested ensures AttestedOk(y, r) { assert AttestedOk(x, r); }
    forall r | 0 <= r < |y.log| ensures CommittedOk(y, r) { assert CommittedOk(x, r); }
  }

  lemma LocalQuiet(c: Config, nodes: seq<Replica>, x: Replica, m: Move)
    requires Enabled(c, nodes, x, m) && Local(c, x)
    requires m.Fetch? || m.Observe? || m.Abort? || m.Await? || m.Gather? || m.Stop?
    ensures Local(c, Next(c, nodes, x, m))
  {
    LocalSlots(c, x, Next(c, nodes, x, m));
  }

  lemma LocalPropose(c: Config, nodes: seq<Replica>, x: Replica, m: Move)
    requires Enabled(c, nodes, x, m) && Local(c, x) && m.Propose?
    ensures Local(c, Next(c, nodes, x, m))
  {
    var y := Next(c, nodes, x, m);
    forall k | k in y.past.proposed ensures ProposedOk(y, k) { if k != x.Slot() { assert ProposedOk(x, k); } }
    forall k | k in y.past.hosted ensures HostedOk(y, k) { assert HostedOk(x, k); }
    forall r | r in y.past.attested ensures AttestedOk(y, r) { assert AttestedOk(x, r); }
    forall r | 0 <= r < |y.log| ensures CommittedOk(y, r) { assert CommittedOk(x, r); }
  }

  lemma LocalHost(c: Config, nodes: seq<Replica>, x: Replica, m: Move)
    requires Enabled(c, nodes, x, m) && Local(c, x) && m.Host?
    ensures Local(c, Next(c, nodes, x, m))
  {
    var y := Next(c, nodes, x, m);
    UnusedSlots(c, x);
    forall k | k in y.past.proposed ensures ProposedOk(y, k) { assert ProposedOk(x, k); }
    forall k | k in y.past.hosted ensures HostedOk(y, k) { if k != x.Slot() { assert HostedOk(x, k); } }
    forall r | r in y.past.attested ensures AttestedOk(y, r) { assert AttestedOk(x, r); }
    forall r | 0 <= r < |y.log| ensures CommittedOk(y, r) { assert CommittedOk(x, r); }
  }

  lemma LocalAttest(c: Config, nodes: seq<Replica>, x: Replica, m: Move)
    requires Enabled(c, nodes, x, m) && Local(c, x) && m.Attest?
    ensures Local(c, Next(c, nodes, x, m))
  {
    var y := Next(c, nodes, x, m);
    forall k | k in y.past.proposed ensures ProposedOk(y, k) { assert ProposedOk(x, k); }
    forall k | k in y.past.hosted ensures HostedOk(y, k) { assert HostedOk(x, k); }
    forall r | r in y.past.attested ensures AttestedOk(y, r) { if r != |x.log| { assert AttestedOk(x, r); } }
    forall r | 0 <= r < |y.log| ensures CommittedOk(y, r) { assert CommittedOk(x, r); }
  }

  /** Committing an entry: the round's slots and attestations become those of an earlier round. */
  lemma LocalAppended(c: Config, x: Replica, y: Replica, e: Entry, how: How)
    requires Local(c, x) && y.log == x.log + [e] && y.past == x.past.(how := x.past.how + [how])
    requires Extends(y.proposals, x.proposals) && y.receipts <= x.receipts && Extends(y.attests, x.attests)
    requires y.phase.Open? && y.attempt == 0
    requires (x.phase.Collecting? && e == x.phase.entry && how == ByReceipts(x.attempt))
          || (x.phase.Folding? && how == ByAutoFold)
    ensures Local(c, y)
  {
    hide Proposable;
    hide Mover;
    forall k | k in y.past.proposed ensures ProposedOk(y, k) { assert ProposedOk(x, k); }
    forall k | k in y.past.hosted ensures HostedOk(y, k) { assert HostedOk(x, k); }
    forall r | r in y.past.attested ensures AttestedOk(y, r) { assert AttestedOk(x, r); }
    forall r | 0 <= r < |y.log| ensures CommittedOk(y, r) { if r < |x.log| { assert CommittedOk(x, r); } }
  }

  lemma LocalAppend(c: Config, nodes: seq<Replica>, x: Replica, m: Move)
    requires Enabled(c, nodes, x, m) && Local(c, x) && (m.Commit? || m.FinishFold?)
    ensures Local(c, Next(c, nodes, x, m))
  {
    hide Local;
    hide Proposable;
    hide Foldable;
    hide Attestation;
    hide Over;
    hide Out;
    var y := Next(c, nodes, x, m);
    LocalAppended(c, x, y, y.log[|x.log|], if m.Commit? then ByReceipts(x.attempt) else ByAutoFold);
  }

  lemma NextLocal(c: Config, nodes: seq<Replica>, x: Replica, m: Move)
    requires Enabled(c, nodes, x, m) && Local(c, x)
    ensures Local(c, Next(c, nodes, x, m))
  {
    match m
    case Propose(_, _) => LocalPropose(c, nodes, x, m);
    case Host => LocalHost(c, nodes, x, m);
    case Attest(_) => LocalAttest(c, nodes, x, m);
    case Commit => LocalAppend(c, nodes, x, m);
    case FinishFold => LocalAppend(c, nodes, x, m);
    case _ => LocalQuiet(c, nodes, x, m);
  }

  // --------------------------------------------------------------------- across replicas

  /** The entry at a slot of this log's round came from the store of the seat to act. */
  ghost predicate FromProposer(c: Config, nodes: seq<Replica>, log: seq<Entry>, k: Slot, e: Entry) {
    && k.0 <= |log|
    && var p := Mover(c.s, log[..k.0]);
       p < |nodes| && k in nodes[p].past.proposed && nodes[p].past.proposed[k] == e
  }

  ghost predicate HasHosted(nodes: seq<Replica>, j: nat, k: Slot) {
    j < |nodes| && k in nodes[j].past.hosted
  }

  ghost predicate HasAttested(nodes: seq<Replica>, j: nat, r: nat, sig: bytes) {
    j < |nodes| && r in nodes[j].past.attested && nodes[j].past.attested[r] == sig
  }

  /** A round committed by receipts had a receipt of every other seat still in after it; an
      auto-folded round carries exactly the attestations of every other seat in before it. */
  ghost predicate RoundBacked(c: Config, nodes: seq<Replica>, x: Replica, r: nat)
    requires r < |x.log| == |x.past.how|
  {
    match x.past.how[r]
    case ByReceipts(a) =>
      && Proposable(c.s, x.log[..r], x.log[r])
      && forall j :: 0 <= j < c.s.n && j != x.seat && !Out(c.s, x.log[..r + 1], j) ==> HasHosted(nodes, j, (r, a))
    case ByAutoFold =>
      var e := x.log[r];
      && Foldable(c.s, x.log[..r], e) && e.player == Mover(c.s, x.log[..r])
      && e.action == Action(FOLD, 0) && e.data == []
      && forall k :: 0 <= k < |e.coSigners| ==> HasAttested(nodes, e.coSigners[k], r, e.coSignatures[k])
  }

  ghost predicate PhaseBacked(c: Config, nodes: seq<Replica>, x: Replica) {
    && (x.phase.Holding? || x.phase.Collecting? ==> FromProposer(c, nodes, x.log, x.Slot(), x.phase.entry))
    && (x.phase.Collecting? ==> forall j :: j in x.phase.got ==> HasHosted(nodes, j, x.Slot()))
    && (x.phase.Folding? ==>
          forall j :: j in x.phase.sigs ==> HasAttested(nodes, j, |x.log|, x.phase.sigs[j]))
  }

  ghost predicate Backed(c: Config, nodes: seq<Replica>, x: Replica) {
    && |x.log| == |x.past.how|
    && (forall k :: k in x.past.hosted ==> FromProposer(c, nodes, x.log, k, x.past.hosted[k]))
    && (forall r :: 0 <= r < |x.log| ==> RoundBacked(c, nodes, x, r))
    && PhaseBacked(c, nodes, x)
  }

  ghost predicate AllGrow(a: seq<Replica>, b: seq<Replica>) {
    |a| == |b| && forall j :: 0 <= j < |a| ==> Grows(a[j], b[j])
  }

  lemma ProposerMonotone(c: Config, a: seq<Replica>, b: seq<Replica>, log: seq<Entry>, k: Slot, e: Entry)
    requires AllGrow(a, b) && FromProposer(c, a, log, k, e)
    ensures FromProposer(c, b, log, k, e)
  {
    hide Mover;
    var p := Mover(c.s, log[..k.0]);
    assert Grows(a[p], b[p]);
  }

  lemma HostedMonotone(a: seq<Replica>, b: seq<Replica>, j: nat, k: Slot)
    requires AllGrow(a, b) && HasHosted(a, j, k)
    ensures HasHosted(b, j, k)
  {
    assert Grows(a[j], b[j]);
  }

  lemma AttestedMonotone(a: seq<Replica>, b: seq<Replica>, j: nat, r: nat, sig: bytes)
    requires AllGrow(a, b) && HasAttested(a, j, r, sig)
    ensures HasAttested(b, j, r, sig)
  {
    assert Grows(a[j], b[j]);
  }

  lemma RoundMonotone(c: Config, a: seq<Replica>, b: seq<Replica>, x: Replica, r: nat)
    requires AllGrow(a, b) && r < |x.log| == |x.past.how| && RoundBacked(c, a, x, r)
    ensures RoundBacked(c, b, x, r)
  {
    hide Proposable;
    hide Foldable;
    hide Mover;
    hide Out;
    forall j: nat, k: Slot | HasHosted(a, j, k) ensures HasHosted(b, j, k) { HostedMonotone(a, b, j, k); }
    forall j: nat, q: nat, sig: bytes | HasAttested(a, j, q, sig) ensures HasAttested(b, j, q, sig) {
      AttestedMonotone(a, b, j, q, sig);
    }
  }

  lemma PhaseMonotone(c: Config, a: seq<Replica>, b: seq<Replica>, x: Replica)
    requires AllGrow(a, b) && PhaseBacked(c, a, x)
    ensures PhaseBacked(c, b, x)
  {
    hide Mover;
    if x.phase.Holding? || x.phase.Collecting? { ProposerMonotone(c, a, b, x.log, x.Slot(), x.phase.entry); }
    forall j: nat, k: Slot | HasHosted(a, j, k) ensures HasHosted(b, j, k) { HostedMonotone(a, b, j, k); }
    forall j: nat, q: nat, sig: bytes | HasAttested(a, j, q, sig) ensures HasAttested(b, j, q, sig) {
      AttestedMonotone(a, b, j, q, sig);
    }
  }

  /** What the peers' histories support stays supported as they grow. */
  lemma BackedMonotone(c: Config, a: seq<Replica>, b: seq<Replica>, x: Replica)
    requires AllGrow(a, b) && Backed(c, a, x)
    ensures Backed(c, b, x)
  {
    hide FromProposer;
    hide RoundBacked;
    hide PhaseBacked;
    hide AllGrow;
    forall k | k in x.past.hosted ensures FromProposer(c, b, x.log, k, x.past.hosted[k]) {
      ProposerMonotone(c, a, b, x.log, k, x.past.hosted[k]);
    }
    forall r | 0 <= r < |x.log| ensures RoundBacked(c, b, x, r) { RoundMonotone(c, a, b, x, r); }
    PhaseMonotone(c, a, b, x);
  }

  lemma RoundBackedKept(c: Config, nodes: seq<Replica>, x: Replica, y: Replica, r: nat)
    requires r < |x.log| == |x.past.how| && |x.log| <= |y.log| == |y.past.how| && x.seat == y.seat
    requires x.log <= y.log && x.past.how <= y.past.how && RoundBacked(c, nodes, x, r)
    ensures RoundBacked(c, nodes, y, r)
  {
    hide Proposable;
    hide Foldable;
    hide Mover;
    hide Out;
    assert y.log[..r] == x.log[..r] && y.log[..r + 1] == x.log[..r + 1];
  }

  lemma ProposerKept(c: Config, nodes: seq<Replica>, log: seq<Entry>, more: seq<Entry>, k: Slot, e: Entry)
    requires log <= more && FromProposer(c, nodes, log, k, e)
    ensures FromProposer(c, nodes, more, k, e)
  {
    hide Mover;
    assert more[..k.0] == log[..k.0];
  }

  /** Appending to the log changes nothing about earlier rounds. */
  lemma BackedAppend(c: Config, nodes: seq<Replica>, x: Replica, y: Replica)
    requires |x.log| == |x.past.how| && |y.log| == |y.past.how| == |x.log| + 1
    requires x.log <= y.log && x.past.how <= y.past.how && y.seat == x.seat && y.past.hosted == x.past.hosted
    requires Backed(c, nodes, x) && RoundBacked(c, nodes, y, |x.log|) && y.phase.Open?
    ensures Backed(c, nodes, y)
  {
    hide FromProposer;
    hide RoundBacked;
    forall k | k in y.past.hosted ensures FromProposer(c, nodes, y.log, k, y.past.hosted[k]) {
      ProposerKept(c, nodes, x.log, y.log, k, y.past.hosted[k]);
    }
    forall r | 0 <= r < |y.log| ensures RoundBacked(c, nodes, y, r) {
      if r < |x.log| { RoundBackedKept(c, nodes, x, y, r); }
    }
  }

  /** Moves that leave log, commit history and receipts history alone only have to justify the phase. */
  lemma BackedPhase(c: Config, nodes: seq<Replica>, x: Replica, y: Replica)
    requires |x.log| == |x.past.how| && y.log == x.log && y.past.how == x.past.how && y.seat == x.seat
    requires forall k :: k in y.past.hosted ==> k in x.past.hosted && y.past.hosted[k] == x.past.hosted[k]
    requires Backed(c, nodes, x) && PhaseBacked(c, nodes, y)
    ensures Backed(c, nodes, y)
  {
    forall r | 0 <= r < |y.log| ensures RoundBacked(c, nodes, y, r) { assert RoundBacked(c, nodes, x, r); }
  }

  ghost predicate Peers(c: Config, nodes: seq<Replica>) {
    forall j :: 0 <= j < |nodes| ==> nodes[j].seat == j && Local(c, nodes[j])
  }

  /** What a poll returns was hosted: the store never holds anything that is not in the history. */
  lemma PolledWasHosted(c: Config, a: seq<Replica>, j: nat)
    requires Peers(c, a) && j < |a|
    ensures forall k :: k in a[j].receipts ==> HasHosted(a, j, k)
    ensures forall k :: k in a[j].proposals ==> k in a[j].past.proposed && a[j].past.proposed[k] == a[j].proposals[k]
    ensures forall r :: r in a[j].attests ==> HasAttested(a, j, r, a[j].attests[r])
  {
    assert Local(c, a[j]);
  }

  lemma BackedPropose(c: Config, a: seq<Replica>, i: nat, m: Move, b: seq<Replica>)
    requires Peers(c, a) && Moved(c, a, i, m, b)
    requires Backed(c, b, a[i]) && (m.Propose? || m.Fetch?)
    ensures Backed(c, b, b[i])
  {
    var x := a[i];
    assert x.log[..|x.log|] == x.log;
    var p := Mover(c.s, x.log);
    if m.Fetch? {
      PolledWasHosted(c, a, p);
      assert b[p] == a[p];
    }
    assert FromProposer(c, b, x.log, x.Slot(), b[i].phase.entry);
    BackedPhase(c, b, x, b[i]);
  }

  lemma BackedHost(c: Config, a: seq<Replica>, i: nat, m: Move, b: seq<Replica>)
    requires Peers(c, a) && Moved(c, a, i, m, b)
    requires Backed(c, b, a[i]) && m.Host?
    ensures Backed(c, b, b[i])
  {
    var x, y := a[i], b[i];
    forall k | k in y.past.hosted ensures FromProposer(c, b, y.log, k, y.past.hosted[k]) {
      if k != x.Slot() { assert FromProposer(c, b, x.log, k, x.past.hosted[k]); }
    }
    forall r | 0 <= r < |y.log| ensures RoundBacked(c, b, y, r) { assert RoundBacked(c, b, x, r); }
  }

  lemma BackedPoll(c: Config, a: seq<Replica>, i: nat, m: Move, b: seq<Replica>)
    requires Peers(c, a) && Moved(c, a, i, m, b)
    requires Backed(c, b, a[i]) && (m.Observe? || m.Gather?)
    ensures Backed(c, b, b[i])
  {
    hide Proposable;
    hide Foldable;
    hide Attestation;
    hide Over;
    hide Out;
    PolledWasHosted(c, a, m.peer);
    assert b[m.peer] == a[m.peer];
    if m.Observe? { assert HasHosted(b, m.peer, a[i].Slot()); }
    if m.Gather? { assert HasAttested(b, m.peer, |a[i].log|, a[m.peer].attests[|a[i].log|]); }
    BackedPhase(c, b, a[i], b[i]);
  }

  lemma BackedQuiet(c: Config, a: seq<Replica>, i: nat, m: Move, b: seq<Replica>)
    requires Peers(c, a) && Moved(c, a, i, m, b)
    requires Backed(c, b, a[i]) && (m.Abort? || m.Attest? || m.Await? || m.Stop?)
    ensures Backed(c, b, b[i])
  {
    if m.Attest? { assert HasAttested(b, i, |a[i].log|, m.sig); }
    BackedPhase(c, b, a[i], b[i]);
  }

  lemma BackedCommit(c: Config, a: seq<Replica>, i: nat, m: Move, b: seq<Replica>)
    requires Peers(c, a) && Moved(c, a, i, m, b)
    requires Backed(c, b, a[i]) && m.Commit?
    ensures Backed(c, b, b[i])
  {
    var x, y := a[i], b[i];
    assert Local(c, x);
    assert y.log[..|x.log| + 1] == x.log + [x.phase.entry] && y.log[..|x.log|] == x.log;
    assert RoundBacked(c, b, y, |x.log|);
    BackedAppend(c, b, x, y);
  }

  lemma BackedFold(c: Config, a: seq<Replica>, i: nat, m: Move, b: seq<Replica>)
    requires Peers(c, a) && Moved(c, a, i, m, b)
    requires Backed(c, b, a[i]) && m.FinishFold?
    ensures Backed(c, b, b[i])
  {
    var x, y := a[i], b[i];
    var e := y.log[|x.log|];
    assert y.log[..|x.log|] == x.log;
    forall k | 0 <= k < |e.coSigners| ensures HasAttested(b, e.coSigners[k], |x.log|, e.coSignatures[k]) {
      assert e.coSigners[k] in x.phase.sigs;
    }
    assert RoundBacked(c, b, y, |x.log|);
    BackedAppend(c, b, x, y);
  }

  lemma NextBacked(c: Config, a: seq<Replica>, i: nat, m: Move, b: seq<Replica>)
    requires Peers(c, a) && Moved(c, a, i, m, b)
    requires Backed(c, b, a[i])
    ensures Backed(c, b, b[i])
  {
    match m
    case Propose(_, _) => BackedPropose(c, a, i, m, b);
    case Fetch => BackedPropose(c, a, i, m, b);
    case Host => BackedHost(c, a, i, m, b);
    case Observe(_) => BackedPoll(c, a, i, m, b);
    case Gather(_) => BackedPoll(c, a, i, m, b);
    case Commit => BackedCommit(c, a, i, m, b);
    case FinishFold => BackedFold(c, a, i, m, b);
    case _ => BackedQuiet(c, a, i, m, b);
  }
}
