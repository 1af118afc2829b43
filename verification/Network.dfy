/** All runners of a hand together: whatever they are made to do is a run of the protocol. */
module Network {
  import opened Bytes
  import opened Entries
  import opened Betting
  import opened LogRules
  import opened Consensus
  import opened LocalMoves
  import opened Runner
  import opened Sequences
  import Agreement

  /** Every object that a network of runners is made of. */
  ghost function Objects(net: seq<RoundRunner>): set<object> {
    (set i | 0 <= i < |net| :: net[i]) + (set i | 0 <= i < |net| :: net[i].log)
    + (set i | 0 <= i < |net| :: net[i].store)
  }

  ghost predicate Apart(net: seq<RoundRunner>) {
    forall i, j :: 0 <= i < j < |net| ==>
      net[i] != net[j] && net[i].log != net[j].log && net[i].store != net[j].store
  }

  /** The runners of the first seats, each with a log and a store of its own. */
  ghost predicate Joined(c: Config, order: seq<string>, net: seq<RoundRunner>)
    reads Objects(net)
  {
    && Apart(net)
    && forall i :: 0 <= i < |net| ==> net[i].c == c && net[i].order == order && net[i].seat == i && net[i].Valid()
  }

  /** One runner for each seat. */
  ghost predicate Wired(c: Config, order: seq<string>, net: seq<RoundRunner>)
    reads Objects(net)
  {
    |net| == |order| == c.s.n && Joined(c, order, net)
  }

  ghost function States(c: Config, order: seq<string>, net: seq<RoundRunner>): (nodes: seq<Replica>)
    requires Joined(c, order, net)
    reads Objects(net)
    ensures |nodes| == |net| && forall i :: 0 <= i < |net| ==> nodes[i] == net[i].State()
  {
    seq(|net|, i requires 0 <= i < |net| && net[i].Valid() reads Objects(net) => net[i].State())
  }

  method Join(c: Config, order: seq<string>, net: seq<RoundRunner>) returns (more: seq<RoundRunner>)
    requires 0 < c.s.n <= 255 && |net| < |order| == c.s.n && Distinct(order) && Joined(c, order, net)
    ensures |more| == |net| + 1 && Joined(c, order, more)
    ensures States(c, order, more) == old(States(c, order, net)) + [Fresh(|net|)]
    ensures forall o :: o in Objects(more) ==> o in Objects(net) || fresh(o)
  {
    hide Fine;
    hide View;
    hide Fresh;
    hide Objects;
    hide States;
    hide Distinct;
    var runner := new RoundRunner(c, order, |net|);
    more := net + [runner];
    ObjectsGrow(net, runner);
  }

  lemma ObjectsGrow(net: seq<RoundRunner>, runner: RoundRunner)
    ensures Objects(net + [runner]) == Objects(net) + {runner, runner.log, runner.store}
  {
    var more := net + [runner];
    forall o | o in Objects(net) ensures o in Objects(more) {
      var i :| 0 <= i < |net| && (o == net[i] || o == net[i].log || o == net[i].store);
      assert more[i] == net[i];
    }
    assert more[|net|] == runner;
  }

  /** Fresh runners, as at the start of a hand. */
  method Seat(c: Config, order: seq<string>) returns (net: seq<RoundRunner>)
    requires 0 < c.s.n <= 255 && |order| == c.s.n && Distinct(order)
    ensures Wired(c, order, net) && fresh(Objects(net)) && Init(c, States(c, order, net))
  {
    hide Joined;
    hide Fresh;
    hide Objects;
    hide States;
    hide Distinct;
    net := [];
    NobodyYet(c, order);
    for i := 0 to c.s.n
      invariant |net| == i && Joined(c, order, net) && States(c, order, net) == AllFresh(i)
      invariant forall o :: o in Objects(net) ==> fresh(o)
    {
      net := Join(c, order, net);
    }
  }

  ghost function AllFresh(n: nat): (nodes: seq<Replica>)
    ensures |nodes| == n && forall i :: 0 <= i < n ==> nodes[i] == Fresh(i)
  {
    if n == 0 then [] else AllFresh(n - 1) + [Fresh(n - 1)]
  }

  lemma NobodyYet(c: Config, order: seq<string>)
    ensures Joined(c, order, []) && Objects([]) == {}
  {
  }

  lemma NobodyThere(c: Config, nodes: seq<Replica>, x: Replica, m: Move)
    requires (m.Observe? || m.Gather?) && m.peer >= |nodes|
    ensures !Enabled(c, nodes, x, m)
  {
  }

  /** The move as a method of the seat's runner. Polls go to the runners of the polled seats. */
  method Ask(c: Config, order: seq<string>, net: seq<RoundRunner>, i: nat, m: Move, sig: bytes,
             ghost nodes: seq<Replica>)
    returns (ok: bool)
    requires Wired(c, order, net) && i < |net| && nodes == States(c, order, net)
    requires m.Propose? || m.Attest? ==> |m.sig| == 64
    modifies net[i], net[i].log, net[i].store
    ensures net[i].Valid() && (ok <==> Enabled(c, nodes, nodes[i], m))
    ensures net[i].State() == if ok then Next(c, nodes, nodes[i], m) else nodes[i]
  {
    hide Enabled;
    hide Next;
    hide Fine;
    hide View;
    hide Turn;
    var me := net[i];
    match m {
      case Propose(action, s) => ok := me.Offer(action, s, nodes);
      case Fetch =>
        FineParts(c, me.Now());
        var turn := me.ToAct();
        ok := me.Examine(net[turn], nodes);
      case Host => ok := me.HostVerifyReceipt(sig, nodes);
      case Observe(j) =>
        if j >= |net| {
          NobodyThere(c, nodes, nodes[i], m);
          return false;
        }
        ok := me.SeeReceipt(net[j], nodes);
      case Commit => ok := me.Settle(nodes);
      case Abort => ok := me.TimeOut(nodes);
      case Attest(s) => ok := me.HostAttestation(s, nodes);
      case Await => ok := me.AwaitOwnFold(nodes);
      case Gather(j) =>
        if j >= |net| {
          NobodyThere(c, nodes, nodes[i], m);
          return false;
        }
        ok := me.TakeAttestation(net[j], nodes);
      case FinishFold => ok := me.AppendFold(nodes);
      case Stop => ok := me.Halt(nodes);
    }
  }

  /** Seat `i` is asked to make move `m`; it does so exactly if the protocol lets it. A receipt's own
      signature is `sig`. */
  method Act(c: Config, order: seq<string>, net: seq<RoundRunner>, i: nat, m: Move, sig: bytes) returns (ok: bool)
    requires Wired(c, order, net) && i < |net|
    requires m.Propose? || m.Attest? ==> |m.sig| == 64
    modifies net[i], net[i].log, net[i].store
    ensures Wired(c, order, net)
    ensures ok <==> Enabled(c, old(States(c, order, net)), old(States(c, order, net))[i], m)
    ensures ok ==> Moved(c, old(States(c, order, net)), i, m, States(c, order, net))
    ensures !ok ==> States(c, order, net) == old(States(c, order, net))
  {
    hide Enabled;
    hide Next;
    hide Fine;
    hide View;
    ghost var nodes := States(c, order, net);
    ok := Ask(c, order, net, i, m, sig, nodes);
    assert Apart(net);
    forall k | 0 <= k < |net| && k != i ensures net[k].Valid() && net[k].State() == nodes[k] {
      assert net[k] != net[i] && net[k].log != net[i].log && net[k].store != net[i].store;
    }
  }

  /** A request to a seat: a move, and the signature of the receipt if it hosts one. */
  datatype Request = Request(seat: nat, move: Move, sig: bytes)

  predicate Askable(n: nat, r: Request) {
    r.seat < n && (r.move.Propose? || r.move.Attest? ==> |r.move.sig| == 64)
  }

  lemma RunGrows(c: Config, trace: seq<seq<Replica>>, i: nat, m: Move, b: seq<Replica>)
    requires Run(c, trace) && Moved(c, trace[|trace| - 1], i, m, b)
    ensures Run(c, trace + [b])
  {
    hide Moved;
    var more := trace + [b];
    forall k | 0 <= k < |more| - 1 ensures Steps(c, more[k], more[k + 1]) {
      if k < |trace| - 1 { assert Steps(c, trace[k], trace[k + 1]); }
    }
  }

  /** Runners that start afresh and are asked for moves in any order, with those they refuse skipped, go through
      a run of the protocol. */
  method Play(c: Config, order: seq<string>, net: seq<RoundRunner>, schedule: seq<Request>)
    returns (ghost trace: seq<seq<Replica>>)
    requires Wired(c, order, net) && Init(c, States(c, order, net))
    requires forall k :: 0 <= k < |schedule| ==> Askable(c.s.n, schedule[k])
    modifies Objects(net)
    ensures Wired(c, order, net)
    ensures Run(c, trace) && trace != [] && trace[|trace| - 1] == States(c, order, net)
  {
    hide Joined;
    hide Enabled;
    hide Moved;
    hide Run;
    hide Objects;
    hide States;
    StartsRun(c, States(c, order, net));
    trace := [States(c, order, net)];
    for k := 0 to |schedule|
      invariant Wired(c, order, net)
      invariant Run(c, trace) && trace != [] && trace[|trace| - 1] == States(c, order, net)
    {
      var r := schedule[k];
      assert Askable(c.s.n, r);
      InObjects(net, r.seat);
      var ok := Act(c, order, net, r.seat, r.move, r.sig);
      if ok {
        RunGrows(c, trace, r.seat, r.move, States(c, order, net));
        trace := trace + [States(c, order, net)];
      }
    }
  }

  lemma InObjects(net: seq<RoundRunner>, i: nat)
    requires i < |net|
    ensures net[i] in Objects(net) && net[i].log in Objects(net) && net[i].store in Objects(net)
  {
  }

  lemma StartsRun(c: Config, nodes: seq<Replica>)
    requires Init(c, nodes)
    ensures Run(c, [nodes])
  {
  }

  /** Both seats have finished the hand, each in on both logs. */
  ghost predicate BothFinish(s: Session, a: seq<Entry>, i: nat, b: seq<Entry>, j: nat) {
    Over(s, a) && Over(s, b) && !Out(s, a, i) && !Out(s, a, j) && !Out(s, b, i) && !Out(s, b, j)
  }

  /** The runners of a hand, asked for moves in any order: every committed log is accepted and within the bound
      on a hand, and seats that finish without folding each other finish with the same log. */
  method PlayHand(c: Config, order: seq<string>, schedule: seq<Request>) returns (logs: seq<seq<Entry>>)
    requires c.s.Playable() && |order| == c.s.n && Distinct(order)
    requires forall k :: 0 <= k < |schedule| ==> Askable(c.s.n, schedule[k])
    ensures |logs| == c.s.n
    ensures forall i :: 0 <= i < |logs| ==> Accepted(c.s, logs[i]) && |logs[i]| <= 4 * c.s.n + c.s.n * c.s.n * c.s.stack
    ensures forall i, j :: 0 <= i < j < |logs| && BothFinish(c.s, logs[i], i, logs[j], j) ==> logs[i] == logs[j]
  {
    hide Accepted;
    hide Joined;
    hide Run;
    hide Objects;
    hide States;
    hide Distinct;
    hide Init;
    hide Over;
    hide Out;
    var net := Seat(c, order);
    ghost var trace := Play(c, order, net, schedule);
    ghost var nodes := States(c, order, net);
    logs := [];
    for i := 0 to |net|
      invariant |logs| == i && forall k :: 0 <= k < i ==> logs[k] == nodes[k].log
    {
      logs := logs + [LogOf(c, order, net, i)];
    }
    forall i | 0 <= i < |logs|
      ensures Accepted(c.s, logs[i]) && |logs[i]| <= 4 * c.s.n + c.s.n * c.s.n * c.s.stack
    {
      Agreement.RunLogsSound(c, trace, |trace| - 1, i);
    }
    forall i, j | 0 <= i < j < |logs| && BothFinish(c.s, logs[i], i, logs[j], j) ensures logs[i] == logs[j] {
      Agreement.FinishedLogsAgree(c, trace, |trace| - 1, i, j);
    }
  }

  function LogOf(c: Config, order: seq<string>, net: seq<RoundRunner>, i: nat): (log: seq<Entry>)
    requires Wired(c, order, net) && i < |net|
    reads Objects(net)
    ensures log == States(c, order, net)[i].log
  {
    net[i].Committed()
  }
}
