/** All nodes of a table together: whatever they are made to do in shuffle, deal and reveal is a run of the
    table. */
module DealNetwork {
  import opened Keys
  import opened MentalPoker
  import opened Peers
  import opened DealRun
  import opened DealTrace

  ghost predicate Apart(net: seq<Node>) {
    forall i, j :: 0 <= i < j < |net| ==> net[i] != net[j]
  }

  /** One node for each seat, with its key. */
  ghost predicate Dealers(d: Deal, net: seq<Node>) {
    && |net| <= |d.keys| && Apart(net)
    && forall i :: 0 <= i < |net| ==>
         net[i].seat == i && net[i].n == |d.keys| && net[i].key == d.keys[i] && net[i].p == d.p > 0
  }

  ghost function States(net: seq<Node>): (t: Table)
    reads net
    ensures |t| == |net| && forall i :: 0 <= i < |net| ==> t[i] == net[i].State()
  {
    seq(|net|, i requires 0 <= i < |net| reads net => net[i].State())
  }

  /** `PollRemote`, or the local store when a node asks itself. */
  function Ask(node: Node, name: Name): (r: Poll)
    reads node
    ensures r.Answer? <==> name in node.State().files
    ensures r.Answer? ==> r.file == node.State().files[name]
  {
    if name in node.files then Answer(node.files[name]) else NoAnswer
  }

  /** What the table asks of one node: nothing or the whole step. */
  ghost predicate Served(d: Deal, t: Table, i: nat, a: Action, ok: bool, after: Peer)
    requires d.Ok() && |t| == |d.keys| && i < |t|
  {
    (ok <==> Enabled(d, t, i, a)) && after == if ok then Acted(d, t, i, a) else t[i]
  }

  lemma HostedDeck(d: Deal, t: Table, seat: nat)
    requires d.Ok() && Right(d, t) && Hosted(t, seat, ShuffleStep(seat))
    ensures Hosts(t, seat, ShuffleStep(seat)).Deck? && |Hosts(t, seat, ShuffleStep(seat)).cards| == 52
  {
    RightHosted(d, t, seat, ShuffleStep(seat));
  }

  method ServeShuffle(d: Deal, net: seq<Node>, i: nat, ghost t: Table) returns (ok: bool)
    requires d.Ok() && Dealers(d, net) && |net| == |d.keys| && i < |net| && t == States(net) && Right(d, t)
    modifies net[i]
    ensures Served(d, t, i, Shuffle, ok, net[i].State())
  {
    hide Right;
    var prev := NoAnswer;
    if i > 0 {
      prev := Ask(net[i - 1], ShuffleStep(i - 1));
      if prev.Answer? { HostedDeck(d, t, i - 1); }
    }
    var r := net[i].ShuffleTurn(prev, d.draws[i]);
    return r.Done?;
  }

  method ServeDeck(d: Deal, net: seq<Node>, i: nat, ghost t: Table) returns (ok: bool)
    requires d.Ok() && Dealers(d, net) && |net| == |d.keys| && i < |net| && t == States(net) && Right(d, t)
    modifies net[i]
    ensures Served(d, t, i, TakeDeck, ok, net[i].State())
  {
    hide Right;
    var n := |net|;
    if i == n - 1 {
      return false;
    }
    var r := net[i].TakeDeck(Ask(net[n - 1], ShuffleStep(n - 1)));
    return r.Done?;
  }

  method ServeStripHole(d: Deal, net: seq<Node>, i: nat, slot: nat, ghost t: Table) returns (ok: bool)
    requires d.Ok() && Dealers(d, net) && |net| == |d.keys| && i < |net| && t == States(net)
    modifies net[i]
    ensures Served(d, t, i, StripHole(slot), ok, net[i].State())
  {
    if i == slot / 2 || slot / 2 >= |net| {
      return false;
    }
    var relay := NoAnswer;
    if Ring(i, slot / 2) != [] {
      RingToPrevious(i, slot / 2);
      var prev := Previous(i, slot / 2);
      relay := Ask(net[prev], HoleRelay(slot, prev));
    }
    var r := net[i].DealHoleSlot(slot, relay);
    return r.Done?;
  }

  method ServeTakeHole(d: Deal, net: seq<Node>, i: nat, slot: nat, ghost t: Table) returns (ok: bool)
    requires d.Ok() && Dealers(d, net) && |net| == |d.keys| && i < |net| && t == States(net)
    modifies net[i]
    ensures Served(d, t, i, TakeHole(slot), ok, net[i].State())
  {
    if i != slot / 2 {
      return false;
    }
    RingEmpty(|net|, i);
    RingToPrevious(|net|, i);
    var last := Previous(|net|, i);
    var r := net[i].DealHoleSlot(slot, Ask(net[last], HoleRelay(slot, last)));
    return r.Done?;
  }

  method ServeStripBoard(d: Deal, net: seq<Node>, i: nat, idx: nat, ghost t: Table) returns (ok: bool)
    requires d.Ok() && Dealers(d, net) && |net| == |d.keys| && i < |net| && t == States(net)
    modifies net[i]
    ensures Served(d, t, i, StripBoard(idx), ok, net[i].State())
  {
    if idx < 2 * |net| {
      return false;
    }
    var relay := NoAnswer;
    if i > 0 {
      relay := Ask(net[i - 1], CommunityRelay(idx, i - 1));
    }
    var r := net[i].StripCommunity(idx, relay);
    return r.Done?;
  }

  method ServeTakeBoard(d: Deal, net: seq<Node>, i: nat, idx: nat, ghost t: Table) returns (ok: bool)
    requires d.Ok() && Dealers(d, net) && |net| == |d.keys| && i < |net| && t == States(net)
    modifies net[i]
    ensures Served(d, t, i, TakeBoard(idx), ok, net[i].State())
  {
    var n := |net|;
    if !(2 * n <= idx < |net[i].deck| && i + 1 < n) {
      return false;
    }
    var r := net[i].TakeCommunity(idx, Ask(net[n - 1], CommunityCard(idx)));
    return r.Done?;
  }

  method Serve(d: Deal, net: seq<Node>, i: nat, a: Action, ghost t: Table) returns (ok: bool)
    requires d.Ok() && Dealers(d, net) && |net| == |d.keys| && i < |net| && t == States(net) && Right(d, t)
    modifies net[i]
    ensures Served(d, t, i, a, ok, net[i].State())
  {
    hide Right;
    hide Acted;
    match a {
      case Shuffle => ok := ServeShuffle(d, net, i, t);
      case TakeDeck => ok := ServeDeck(d, net, i, t);
      case StripHole(slot) => ok := ServeStripHole(d, net, i, slot, t);
      case TakeHole(slot) => ok := ServeTakeHole(d, net, i, slot, t);
      case StripBoard(idx) => ok := ServeStripBoard(d, net, i, idx, t);
      case TakeBoard(idx) => ok := ServeTakeBoard(d, net, i, idx, t);
      case Publish =>
        net[i].PublishShowdownClaim();
        PublishIsStep(d, t, i);
        return true;
    }
  }

  lemma PublishIsStep(d: Deal, t: Table, i: nat)
    requires d.Ok() && |t| == |d.keys| && i < |t|
    ensures Enabled(d, t, i, Publish) && Acted(d, t, i, Publish) == ClaimPublished(t[i], i, d.keys[i])
  {
  }

  /** Seat `i` is asked for step `a`; it takes it exactly if the table allows. */
  method Act(d: Deal, net: seq<Node>, i: nat, a: Action) returns (ok: bool)
    requires d.Ok() && Dealers(d, net) && |net| == |d.keys| && i < |net| && Right(d, States(net))
    modifies net[i]
    ensures ok <==> Enabled(d, old(States(net)), i, a)
    ensures ok ==> Took(d, old(States(net)), i, a, States(net))
    ensures !ok ==> States(net) == old(States(net))
  {
    hide Right;
    hide Acted;
    hide Enabled;
    ghost var t := States(net);
    ok := Serve(d, net, i, a, t);
    assert Apart(net);
    forall k | 0 <= k < |net| && k != i ensures net[k].State() == t[k] { assert net[k] != net[i]; }
  }

  method Seat(d: Deal) returns (net: seq<Node>)
    requires d.Ok()
    ensures fresh(net) && Dealers(d, net) && States(net) == Start(|d.keys|)
  {
    hide States;
    net := [];
    for i := 0 to |d.keys|
      invariant |net| == i && fresh(net) && Dealers(d, net)
      invariant forall k :: 0 <= k < i ==> net[k].State() == NOTHING
    {
      var node := new Node(i, |d.keys|, d.keys[i], d.p);
      net := net + [node];
    }
  }

  lemma LabelledGrows(d: Deal, run: seq<Table>, acts: Steps, i: nat, a: Action, u: Table)
    requires d.Ok() && Labelled(d, run, acts) && Took(d, run[|run| - 1], i, a, u)
    ensures Labelled(d, run + [u], acts + [(i, a)])
  {
    hide Took;
    var more, steps := run + [u], acts + [(i, a)];
    forall k | 0 <= k < |steps| ensures Took(d, more[k], steps[k].0, steps[k].1, more[k + 1]) {
      if k < |acts| { assert Took(d, run[k], acts[k].0, acts[k].1, run[k + 1]); }
    }
  }

  lemma LabelledIsRight(d: Deal, run: seq<Table>, acts: Steps)
    requires d.Ok() && Labelled(d, run, acts)
    ensures Right(d, run[|run| - 1])
  {
    hide Right;
    LabelledIsRun(d, run, acts);
    RunIsRight(d, run);
  }

  /** Nodes that start afresh and are asked for steps in any order, with those they cannot take skipped, go
      through a run of the table. */
  method Play(d: Deal, net: seq<Node>, schedule: Steps) returns (ghost run: seq<Table>, ghost acts: Steps)
    requires d.Ok() && Dealers(d, net) && States(net) == Start(|d.keys|)
    requires forall k :: 0 <= k < |schedule| ==> schedule[k].0 < |net|
    modifies net
    ensures Labelled(d, run, acts) && run[|run| - 1] == States(net)
  {
    hide Took;
    hide Right;
    hide Enabled;
    hide States;
    run, acts := [States(net)], [];
    for k := 0 to |schedule|
      invariant Labelled(d, run, acts) && run[|run| - 1] == States(net)
    {
      LabelledIsRight(d, run, acts);
      var ok := Act(d, net, schedule[k].0, schedule[k].1);
      if ok {
        LabelledGrows(d, run, acts, schedule[k].0, schedule[k].1, States(net));
        run, acts := run + [States(net)], acts + [schedule[k]];
      }
    }
  }

  /** The nodes of a table, asked for steps in any order: whatever hole or board card anybody has recorded is
      the card that the composed permutation dealt there. */
  method PlayTable(d: Deal, schedule: Steps) returns (peers: seq<Peer>)
    requires d.Ok() && forall k :: 0 <= k < |schedule| ==> schedule[k].0 < |d.keys|
    ensures |peers| == |d.keys|
    ensures forall i :: 0 <= i < |peers| ==>
              && RightHole(d, 2 * i, peers[i].card1) && RightHole(d, 2 * i + 1, peers[i].card2)
              && RightBoard(d, peers[i].board)
  {
    hide States;
    hide Labelled;
    hide RightHole;
    hide RightBoard;
    var net := Seat(d);
    ghost var run, acts := Play(d, net, schedule);
    LabelledIsRight(d, run, acts);
    ghost var t := States(net);
    peers := [];
    for i := 0 to |net|
      invariant |peers| == i && forall k :: 0 <= k < i ==> peers[k] == t[k]
    {
      peers := peers + [net[i].State()];
    }
    forall i | 0 <= i < |peers|
      ensures RightHole(d, 2 * i, peers[i].card1) && RightHole(d, 2 * i + 1, peers[i].card2)
      ensures RightBoard(d, peers[i].board)
    {
      assert RightPeer(d, i, t[i]);
    }
  }
}
