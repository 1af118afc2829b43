/** The in-memory dealing ring: nodes joined by channels of capacity one (internal/sim/sim.go). */
module DealRing {
  import opened Arith
  import opened Bytes
  import opened Text
  import opened NumberTheory
  import opened Sequences
  import opened Sra
  import opened MentalPoker

  datatype Request = Request(owner: nat, value1: bytes, value2: bytes)

  /** Where a node is in `dealCards`: at a send, at the receive, or returned with its two cards. */
  datatype Node = Sending(req: Request) | Receiving | Returned(card1: string, card2: string)

  /** `channels[i]` leads from node i to the next one. `got[i]` counts what node i has received. */
  datatype State = State(nodes: seq<Node>, channels: seq<seq<Request>>, got: seq<nat>)

  /** Keys of all nodes, the shuffled deck and the prime. */
  datatype Ring = Ring(keys: seq<Key>, deck: seq<bytes>, p: nat)
  {
    ghost predicate Ok() { |keys| >= 2 && |deck| >= 2 * |keys| && p > 0 }

    function Size(): nat { |keys| }
  }

  function Next(n: nat, i: nat): (k: nat)
    requires i < n
    ensures k == if i + 1 == n then 0 else i + 1
  {
    (i + 1) % n
  }

  function Prev(n: nat, i: nat): (k: nat)
    requires i < n
    ensures k == if i == 0 then n - 1 else i - 1
  {
    assert i > 0 ==> (n + i - 1) % n == i - 1;
    (n + i - 1) % n
  }

  // ------------------------------------------------------------------------------------ steps

  function Own(r: Ring, i: nat): Request
    requires r.Ok() && i < r.Size()
  {
    Request(i, r.deck[2 * i], r.deck[2 * i + 1])
  }

  function Start(r: Ring): State
    requires r.Ok()
  {
    var n := r.Size();
    State(seq(n, i requires 0 <= i < n => Sending(Own(r, i))), seq(n, _ => []), seq(n, _ => 0))
  }

  predicate Shaped(r: Ring, s: State) { |s.nodes| == |s.channels| == |s.got| == r.Size() }

  predicate CanSend(r: Ring, s: State, i: nat)
    requires Shaped(r, s)
  {
    i < r.Size() && s.nodes[i].Sending? && s.channels[i] == []
  }

  function Sent(r: Ring, s: State, i: nat): State
    requires Shaped(r, s) && CanSend(r, s, i)
  {
    s.(nodes := s.nodes[i := Receiving], channels := s.channels[i := [s.nodes[i].req]])
  }

  predicate CanReceive(r: Ring, s: State, i: nat)
    requires Shaped(r, s)
  {
    i < r.Size() && s.nodes[i].Receiving? && s.channels[Prev(r.Size(), i)] != []
  }

  function Stripped(r: Ring, q: Request, i: nat): Request
    requires r.Ok() && i < r.Size()
  {
    Request(q.owner, Decrypt(q.value1, r.keys[i], r.p), Decrypt(q.value2, r.keys[i], r.p))
  }

  function Received(r: Ring, s: State, i: nat): State
    requires r.Ok() && Shaped(r, s) && CanReceive(r, s, i)
  {
    var from := Prev(r.Size(), i);
    var q := Stripped(r, s.channels[from][0], i);
    State(s.nodes[i := if q.owner == i then Returned(AsString(q.value1), AsString(q.value2)) else Sending(q)],
          s.channels[from := s.channels[from][1..]],
          s.got[i := s.got[i] + 1])
  }

  // -------------------------------------------------------------------------- the invariant

  /** The node `k` places before `i`, going round the ring: (i - k) mod n. */
  function Back(n: nat, i: nat, k: nat): (b: nat)
    requires i < n && k <= n
    ensures b < n
  {
    if k <= i then i - k else n + i - k
  }

  lemma BackIsMod(n: nat, i: nat, k: nat)
    requires i < n && k <= n
    ensures Back(n, i, k) == (n + i - k) % n
  {
    if k <= i { ModOnce(n + i - k, n); }
  }

  /** Only after a full round is the node back at itself. */
  lemma BackHome(n: nat, i: nat, k: nat)
    requires i < n && 1 <= k <= n
    ensures Back(n, i, k) == i <==> k == n
  {
  }

  /** The nodes after `o`, `m` of them, going round the ring. */
  function Path(n: nat, o: nat, m: nat): (path: seq<nat>)
    requires o < n && m <= n
    ensures |path| == m && forall j :: 0 <= j < m ==> path[j] < n
  {
    seq(m, j requires 0 <= j < m => if o + j + 1 < n then o + j + 1 else o + j + 1 - n)
  }

  /** `q` is the request of node `o` after `m` nodes have stripped their layers. */
  ghost predicate Stage(r: Ring, q: Request, o: nat, m: nat)
    requires r.Ok() && o < r.Size() && m <= r.Size()
  {
    && q.owner == o
    && q.value1 == StripAll(r.deck[2 * o], r.keys, Path(r.Size(), o, m), r.p)
    && q.value2 == StripAll(r.deck[2 * o + 1], r.keys, Path(r.Size(), o, m), r.p)
  }

  /** How many requests node `i` has sent. */
  function SentBy(r: Ring, s: State, i: nat): nat
    requires Shaped(r, s) && i < r.Size()
  {
    s.got[i] + if s.nodes[i].Receiving? then 1 else 0
  }

  /** A node that returned holds its own request, stripped by everybody. */
  ghost predicate NodeOk(r: Ring, s: State, i: nat)
    requires r.Ok() && Shaped(r, s) && i < r.Size()
  {
    && s.got[i] <= r.Size()
    && match s.nodes[i]
       case Sending(q) => s.got[i] < r.Size() && Stage(r, q, Back(r.Size(), i, s.got[i]), s.got[i])
       case Receiving => s.got[i] < r.Size()
       case Returned(c1, c2) =>
         && s.got[i] == r.Size()
         && c1 == AsString(StripAll(r.deck[2 * i], r.keys, Path(r.Size(), i, r.Size()), r.p))
         && c2 == AsString(StripAll(r.deck[2 * i + 1], r.keys, Path(r.Size(), i, r.Size()), r.p))
  }

  /** A channel holds what was sent into it and not yet received, at most one request: the next one
      for the receiver. */
  ghost predicate ChannelOk(r: Ring, s: State, i: nat)
    requires r.Ok() && Shaped(r, s) && i < r.Size()
  {
    var taken := s.got[Next(r.Size(), i)];
    && |s.channels[i]| <= 1 && SentBy(r, s, i) == taken + |s.channels[i]|
    && (s.channels[i] != [] ==> taken <= r.Size() && Stage(r, s.channels[i][0], Back(r.Size(), i, taken), taken))
  }

  ghost predicate Inv(r: Ring, s: State) {
    && r.Ok() && Shaped(r, s)
    && (forall i :: 0 <= i < r.Size() ==> NodeOk(r, s, i))
    && (forall i :: 0 <= i < r.Size() ==> ChannelOk(r, s, i))
  }

  lemma StartInv(r: Ring)
    requires r.Ok()
    ensures Inv(r, Start(r))
  {
    var s := Start(r);
    forall i | 0 <= i < r.Size() ensures NodeOk(r, s, i) && ChannelOk(r, s, i) {
      assert Path(r.Size(), i, 0) == [];
    }
  }

  lemma SendKeeps(r: Ring, s: State, i: nat)
    requires Inv(r, s) && CanSend(r, s, i)
    ensures Inv(r, Sent(r, s, i))
  {
    var u := Sent(r, s, i);
    assert NodeOk(r, s, i) && ChannelOk(r, s, i);
    forall j | 0 <= j < r.Size() ensures NodeOk(r, u, j) { assert NodeOk(r, s, j); }
    forall j | 0 <= j < r.Size() ensures ChannelOk(r, u, j) { assert ChannelOk(r, s, j); }
  }

  lemma StageNext(r: Ring, q: Request, i: nat, m: nat)
    requires r.Ok() && i < r.Size() && m < r.Size()
    requires Stage(r, q, Back(r.Size(), Prev(r.Size(), i), m), m)
    ensures Back(r.Size(), Prev(r.Size(), i), m) == Back(r.Size(), i, m + 1)
    ensures Stage(r, Stripped(r, q, i), Back(r.Size(), i, m + 1), m + 1)
  {
    var n, o := r.Size(), Back(r.Size(), i, m + 1);
    assert Path(n, o, m + 1) == Path(n, o, m) + [i];
    StripOne(r.deck[2 * o], r.keys, Path(n, o, m), i, r.p);
    StripOne(r.deck[2 * o + 1], r.keys, Path(n, o, m), i, r.p);
  }

  /** What node `i` takes out of the channel and strips. */
  lemma Taken(r: Ring, s: State, i: nat)
    requires Inv(r, s) && CanReceive(r, s, i)
    ensures s.got[i] < r.Size()
    ensures Stage(r, Stripped(r, s.channels[Prev(r.Size(), i)][0], i), Back(r.Size(), i, s.got[i] + 1), s.got[i] + 1)
  {
    var from := Prev(r.Size(), i);
    assert NodeOk(r, s, i) && ChannelOk(r, s, from);
    StageNext(r, s.channels[from][0], i, s.got[i]);
  }

  lemma ReceiveNode(r: Ring, s: State, i: nat)
    requires Inv(r, s) && CanReceive(r, s, i)
    ensures NodeOk(r, Received(r, s, i), i)
  {
    Taken(r, s, i);
    BackHome(r.Size(), i, s.got[i] + 1);
  }

  lemma ReceiveChannel(r: Ring, s: State, i: nat, j: nat)
    requires Inv(r, s) && CanReceive(r, s, i) && j < r.Size()
    ensures ChannelOk(r, Received(r, s, i), j)
  {
    assert NodeOk(r, s, i) && ChannelOk(r, s, j) && ChannelOk(r, s, Prev(r.Size(), i));
  }

  lemma ReceiveKeeps(r: Ring, s: State, i: nat)
    requires Inv(r, s) && CanReceive(r, s, i)
    ensures Inv(r, Received(r, s, i))
  {
    var u := Received(r, s, i);
    ReceiveNode(r, s, i);
    forall j | 0 <= j < r.Size() && j != i ensures NodeOk(r, u, j) { assert NodeOk(r, s, j); }
    forall j | 0 <= j < r.Size() ensures ChannelOk(r, u, j) { ReceiveChannel(r, s, i, j); }
  }

  // ------------------------------------------------------------------------------- progress

  predicate AllReturned(s: State) { forall i :: 0 <= i < |s.nodes| ==> s.nodes[i].Returned? }

  ghost predicate Enabled(r: Ring, s: State)
    requires Shaped(r, s)
  {
    exists i :: CanSend(r, s, i) || CanReceive(r, s, i)
  }

  /** A node that has received least. */
  lemma Least(got: seq<nat>) returns (i: nat)
    requires got != []
    ensures i < |got| && forall j :: 0 <= j < |got| ==> got[i] <= got[j]
  {
    i := 0;
    for k := 1 to |got|
      invariant i < k && forall j :: 0 <= j < k ==> got[i] <= got[j]
    {
      if got[k] < got[i] { i := k; }
    }
  }

  /** With the counts of a node that has received least and of its neighbours, somebody can move. */
  lemma LeastMoves(r: Ring, s: State, i: nat)
    requires Inv(r, s) && i < r.Size() && !s.nodes[i].Returned?
    requires s.got[i] <= s.got[Prev(r.Size(), i)] && s.got[i] <= s.got[Next(r.Size(), i)]
    ensures CanSend(r, s, i) || CanReceive(r, s, i) || CanSend(r, s, Prev(r.Size(), i))
  {
    var from := Prev(r.Size(), i);
    assert NodeOk(r, s, i) && ChannelOk(r, s, i) && NodeOk(r, s, from) && ChannelOk(r, s, from);
  }

  /** No deadlock: the node that has received least can move, or the node before it can. */
  lemma NoDeadlock(r: Ring, s: State)
    requires Inv(r, s)
    ensures AllReturned(s) <==> !Enabled(r, s)
  {
    var i := Least(s.got);
    assert NodeOk(r, s, i);
    if s.nodes[i].Returned? {
      forall j | 0 <= j < r.Size() ensures s.nodes[j].Returned? { assert NodeOk(r, s, j) && s.got[i] <= s.got[j]; }
    } else {
      LeastMoves(r, s, i);
    }
  }

  // ------------------------------------------------------------------------------ whole runs

  ghost predicate Follows(r: Ring, s: State, u: State) {
    && r.Ok() && Shaped(r, s)
    && exists i :: (CanSend(r, s, i) && u == Sent(r, s, i)) || (CanReceive(r, s, i) && u == Received(r, s, i))
  }

  ghost predicate Run(r: Ring, run: seq<State>)
    requires r.Ok()
  {
    && run != [] && run[0] == Start(r)
    && forall k :: 0 < k < |run| ==> Follows(r, run[k - 1], run[k])
  }

  /** The channel operations that a node has made. */
  function MovesOf(s: State, i: nat): nat
    requires i < |s.nodes| == |s.got|
  {
    2 * s.got[i] + if s.nodes[i].Receiving? then 1 else 0
  }

  function Moves(s: State, k: nat): nat
    requires k <= |s.nodes| == |s.got|
  {
    if k == 0 then 0 else Moves(s, k - 1) + MovesOf(s, k - 1)
  }

  lemma {:induction false} OneMore(s: State, u: State, i: nat, k: nat)
    requires |s.nodes| == |s.got| == |u.nodes| == |u.got| && k <= |s.nodes| && i < |s.nodes|
    requires forall j :: 0 <= j < |s.nodes| ==> MovesOf(u, j) == MovesOf(s, j) + if j == i then 1 else 0
    ensures Moves(u, k) == Moves(s, k) + if i < k then 1 else 0
  {
    if k > 0 { OneMore(s, u, i, k - 1); }
  }

  lemma FollowsKeeps(r: Ring, s: State, u: State)
    requires Inv(r, s) && Follows(r, s, u)
    ensures Inv(r, u) && Moves(u, r.Size()) == Moves(s, r.Size()) + 1
  {
    hide NodeOk;
    hide ChannelOk;
    var i :| (CanSend(r, s, i) && u == Sent(r, s, i)) || (CanReceive(r, s, i) && u == Received(r, s, i));
    if CanSend(r, s, i) && u == Sent(r, s, i) {
      SendKeeps(r, s, i);
    } else {
      ReceiveKeeps(r, s, i);
    }
    OneMore(s, u, i, r.Size());
  }

  lemma {:induction false} NoMovesYet(r: Ring, k: nat)
    requires r.Ok() && k <= r.Size()
    ensures Moves(Start(r), k) == 0
  {
    if k > 0 { NoMovesYet(r, k - 1); }
  }

  lemma {:induction false} RunInv(r: Ring, run: seq<State>)
    requires r.Ok() && Run(r, run)
    ensures Inv(r, run[|run| - 1]) && Moves(run[|run| - 1], r.Size()) == |run| - 1
    decreases |run|
  {
    hide Inv;
    if |run| == 1 {
      StartInv(r);
      NoMovesYet(r, r.Size());
    } else {
      var front := run[..|run| - 1];
      forall k | 0 < k < |front| ensures Follows(r, front[k - 1], front[k]) { assert Follows(r, run[k - 1], run[k]); }
      RunInv(r, front);
      FollowsKeeps(r, run[|run| - 2], run[|run| - 1]);
    }
  }

  lemma {:induction false} MovesBound(r: Ring, s: State, k: nat)
    requires Inv(r, s) && k <= r.Size()
    ensures Moves(s, k) <= 2 * r.Size() * k
    ensures AllReturned(s) ==> Moves(s, k) == 2 * r.Size() * k
  {
    if k > 0 {
      MovesBound(r, s, k - 1);
      assert NodeOk(r, s, k - 1);
      assert 2 * r.Size() * k == 2 * r.Size() * (k - 1) + 2 * r.Size();
    }
  }

  /** Every run ends after exactly 2n^2 channel operations, with all nodes returned; until then some
      node can move. */
  lemma DealingTerminates(r: Ring, run: seq<State>)
    requires r.Ok() && Run(r, run)
    ensures |run| - 1 <= 2 * r.Size() * r.Size()
    ensures Shaped(r, run[|run| - 1])
    ensures !Enabled(r, run[|run| - 1]) <==> AllReturned(run[|run| - 1])
    ensures AllReturned(run[|run| - 1]) ==> |run| - 1 == 2 * r.Size() * r.Size()
  {
    RunInv(r, run);
    MovesBound(r, run[|run| - 1], r.Size());
    NoDeadlock(r, run[|run| - 1]);
  }

  // ------------------------------------------------------------------------------- the cards

  /** `card` lies at `slot` under the layers of all nodes. */
  ghost predicate Locked(r: Ring, slot: nat, card: bytes)
    requires r.Ok() && slot < |r.deck|
  {
    r.deck[slot] == Minimal(Layered(r.keys, Below(r.Size()), Value(card), r.p))
  }

  lemma FullRound(n: nat, o: nat)
    requires o < n
    ensures Distinct(Path(n, o, n)) && Members(Path(n, o, n)) == Below(n)
  {
    var path := Path(n, o, n);
    forall x | x in Below(n) ensures x in Members(path) {
      assert path[if x > o then x - o - 1 else x + n - o - 1] == x;
    }
  }

  /** What a node returns with: exactly the cards at its two slots, whole or not at all. */
  lemma NodesReturnTheirCards(r: Ring, run: seq<State>, i: nat, first: bytes, second: bytes)
    requires r.Ok() && Run(r, run) && i < r.Size() && Prime(r.p) && Sra.Keys(r.keys, r.p)
    requires Locked(r, 2 * i, first) && Locked(r, 2 * i + 1, second)
    requires first != [] && first[0] != 0 && Value(first) < r.p && second != [] && second[0] != 0 && Value(second) < r.p
    ensures Shaped(r, run[|run| - 1])
    ensures run[|run| - 1].nodes[i].Returned? ==>
              run[|run| - 1].nodes[i] == Returned(AsString(first), AsString(second))
  {
    RunInv(r, run);
    FullRound(r.Size(), i);
    var path := Path(r.Size(), i, r.Size());
    AllLayersOff(r.keys, Below(r.Size()), path, first, r.p);
    AllLayersOff(r.keys, Below(r.Size()), path, second, r.p);
    assert NodeOk(r, run[|run| - 1], i);
  }

  /** The k-th request that node `i` receives, counted from one, is that of node (i - k) mod n. */
  lemma OrderOfRequests(r: Ring, run: seq<State>, i: nat)
    requires r.Ok() && Run(r, run) && Shaped(r, run[|run| - 1]) && CanReceive(r, run[|run| - 1], i)
    ensures run[|run| - 1].channels[Prev(r.Size(), i)][0].owner
         == (r.Size() + i - (run[|run| - 1].got[i] + 1)) % r.Size()
  {
    RunInv(r, run);
    Taken(r, run[|run| - 1], i);
    BackIsMod(r.Size(), i, run[|run| - 1].got[i] + 1);
  }
}
