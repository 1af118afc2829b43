/** The names under which a peer hosts files (internal/ephemeral/store.go). */
module Keys {
  import opened Text

  /** Everything that a key builder can be asked for. */
  datatype Name =
    | Proposal(round: nat, attempt: nat)
    | Receipt(round: nat, attempt: nat, node: string)
    | AutoFold(round: nat, node: string)
    | CommunityRelay(card: nat, seat: nat)
    | CommunityCard(card: nat)
    | ShuffleStep(seat: nat)
    | HoleRelay(slot: nat, seat: nat)
    | ShowdownClaim(seat: nat)

  function Tag(name: Name): string {
    match name
    case Proposal(_, _) => "proposal-"
    case Receipt(_, _, _) => ""
    case AutoFold(_, _) => "auto_fold-"
    case CommunityRelay(_, _) => "community-relay-"
    case CommunityCard(_) => "community-card-"
    case ShuffleStep(_) => "shuffle-step-"
    case HoleRelay(_, _) => "hole-relay-"
    case ShowdownClaim(_) => "showdown-claim-"
  }

  function Body(name: Name): string {
    match name
    case Proposal(round, attempt) => Itoa(round) + ("-" + Itoa(attempt))
    case Receipt(round, attempt, node) => Itoa(round) + ("-" + (Itoa(attempt) + ("_verify_" + node)))
    case AutoFold(round, node) => Itoa(round) + ("-" + node)
    case CommunityRelay(card, seat) => Itoa(card) + ("-" + Itoa(seat))
    case CommunityCard(card) => Itoa(card)
    case ShuffleStep(seat) => Itoa(seat)
    case HoleRelay(slot, seat) => Itoa(slot) + ("-" + Itoa(seat))
    case ShowdownClaim(seat) => Itoa(seat)
  }

  function Key(name: Name): string { Tag(name) + Body(name) }

  function RoundPrefix(round: nat): string { Itoa(round) + "-" }

  function AutoFoldPrefix(round: nat): string { "auto_fold-" + (Itoa(round) + "-") }

  // ------------------------------------------------------------------------- different kinds

  function Kind(name: Name): nat {
    match name
    case Proposal(_, _) => 0
    case Receipt(_, _, _) => 1
    case AutoFold(_, _) => 2
    case CommunityRelay(_, _) => 3
    case CommunityCard(_) => 4
    case ShuffleStep(_) => 5
    case HoleRelay(_, _) => 6
    case ShowdownClaim(_) => 7
  }

  /** The kind of a key, read off its characters. */
  function KindOf(key: string): nat {
    if key == [] then 8
    else if IsDigit(key[0]) then 1
    else if key[0] == 'p' then 0
    else if key[0] == 'a' then 2
    else if key[0] == 'h' then 6
    else if key[0] == 'c' then (if |key| > 10 && key[10] == 'r' then 3 else 4)
    else if |key| > 2 && key[2] == 'u' then 5 else 7
  }

  lemma BodyStartsWithDigit(name: Name)
    ensures Body(name) != [] && IsDigit(Body(name)[0])
  {
  }

  lemma KindIsReadable(name: Name)
    ensures KindOf(Key(name)) == Kind(name)
  {
    BodyStartsWithDigit(name);
    var key := Key(name);
    match name
    case Proposal(_, _) => assert key[0] == "proposal-"[0];
    case Receipt(_, _, _) => assert key[0] == Body(name)[0];
    case AutoFold(_, _) => assert key[0] == "auto_fold-"[0];
    case CommunityRelay(_, _) =>
      assert key[0] == "community-relay-"[0] && key[10] == "community-relay-"[10];
    case CommunityCard(_) => assert key[0] == "community-card-"[0] && key[10] == "community-card-"[10];
    case ShuffleStep(_) => assert key[0] == "shuffle-step-"[0] && key[2] == "shuffle-step-"[2];
    case HoleRelay(_, _) => assert key[0] == "hole-relay-"[0];
    case ShowdownClaim(_) => assert key[0] == "showdown-claim-"[0] && key[2] == "showdown-claim-"[2];
  }

  lemma SameKindSameTag(a: Name, b: Name)
    requires Kind(a) == Kind(b)
    ensures Tag(a) == Tag(b)
  {
  }

  lemma SameKeySameBody(a: Name, b: Name)
    requires Key(a) == Key(b)
    ensures Kind(a) == Kind(b) && Body(a) == Body(b)
  {
    KindIsReadable(a);
    KindIsReadable(b);
    SameKindSameTag(a, b);
    assert Key(a)[|Tag(a)|..] == Body(a) && Key(b)[|Tag(b)|..] == Body(b);
  }

  // --------------------------------------------------------------------- numbers in a key

  /** Digits end at the first character that is not one. */
  lemma DigitsThen(u: string, v: string, s: string, t: string)
    requires AllDigits(u) && AllDigits(v)
    requires s != [] && t != [] && !IsDigit(s[0]) && !IsDigit(t[0])
    requires u + s == v + t
    ensures u == v && s == t
  {
    var w := u + s;
    assert !IsDigit(w[|u|]) && forall i :: 0 <= i < |u| ==> IsDigit(w[i]);
    assert !IsDigit(w[|v|]) && forall i :: 0 <= i < |v| ==> IsDigit(w[i]);
    assert u == (u + s)[..|u|] && v == (v + t)[..|v|];
    assert s == (u + s)[|u|..] && t == (v + t)[|v|..];
  }

  lemma NumberThen(m: nat, n: nat, s: string, t: string)
    requires s != [] && t != [] && !IsDigit(s[0]) && !IsDigit(t[0])
    requires Itoa(m) + s == Itoa(n) + t
    ensures m == n && s == t
  {
    hide Itoa;
    DigitsThen(Itoa(m), Itoa(n), s, t);
    ItoaInjective(m, n);
  }

  lemma Behind(s: string, t: string, x: string)
    requires x + s == x + t
    ensures s == t
  {
    assert s == (x + s)[|x|..] && t == (x + t)[|x|..];
  }

  lemma TwoNumbers(a: nat, b: nat, c: nat, d: nat)
    requires Itoa(a) + ("-" + Itoa(b)) == Itoa(c) + ("-" + Itoa(d))
    ensures a == c && b == d
  {
    hide Itoa;
    NumberThen(a, c, "-" + Itoa(b), "-" + Itoa(d));
    Behind(Itoa(b), Itoa(d), "-");
    ItoaInjective(b, d);
  }

  lemma ReceiptParts(a: Name, b: Name)
    requires a.Receipt? && b.Receipt? && Body(a) == Body(b)
    ensures a == b
  {
    hide Itoa;
    var s, t := Itoa(a.attempt) + ("_verify_" + a.node), Itoa(b.attempt) + ("_verify_" + b.node);
    NumberThen(a.round, b.round, "-" + s, "-" + t);
    Behind(s, t, "-");
    NumberThen(a.attempt, b.attempt, "_verify_" + a.node, "_verify_" + b.node);
    Behind(a.node, b.node, "_verify_");
  }

  lemma AutoFoldParts(a: Name, b: Name)
    requires a.AutoFold? && b.AutoFold? && Body(a) == Body(b)
    ensures a == b
  {
    hide Itoa;
    NumberThen(a.round, b.round, "-" + a.node, "-" + b.node);
    Behind(a.node, b.node, "-");
  }

  /** No two files share a key: not two of one kind, and not two of different kinds. */
  lemma KeysInjective(a: Name, b: Name)
    ensures Key(a) == Key(b) <==> a == b
  {
    if Key(a) == Key(b) {
      SameKeySameBody(a, b);
      match a
      case Proposal(r, k) => TwoNumbers(r, k, b.round, b.attempt);
      case Receipt(_, _, _) => ReceiptParts(a, b);
      case AutoFold(_, _) => AutoFoldParts(a, b);
      case CommunityRelay(c, s) => TwoNumbers(c, s, b.card, b.seat);
      case CommunityCard(c) => ItoaInjective(c, b.card);
      case ShuffleStep(s) => ItoaInjective(s, b.seat);
      case HoleRelay(c, s) => TwoNumbers(c, s, b.slot, b.seat);
      case ShowdownClaim(s) => ItoaInjective(s, b.seat);
    }
  }

  // ---------------------------------------------------------------------------- prefixes

  lemma PrefixSplit(p: string, s: string)
    requires p <= s
    ensures s == p + s[|p|..]
  {
  }

  lemma ReceiptHasPrefix(name: Name)
    requires name.Receipt?
    ensures RoundPrefix(name.round) <= Key(name)
  {
    hide Itoa;
    assert Key(name) == RoundPrefix(name.round) + (Itoa(name.attempt) + ("_verify_" + name.node));
  }

  /** Cleaning up a round removes that round's receipts and nothing else. */
  lemma RoundPrefixExact(round: nat, name: Name)
    ensures RoundPrefix(round) <= Key(name) <==> name.Receipt? && name.round == round
  {
    KindIsReadable(name);
    if RoundPrefix(round) <= Key(name) {
      assert Key(name)[0] == Itoa(round)[0];
      PrefixSplit(RoundPrefix(round), Key(name));
      RoundOfReceipt(round, name, Key(name)[|RoundPrefix(round)|..]);
    }
    if name.Receipt? && name.round == round { ReceiptHasPrefix(name); }
  }

  lemma RoundOfReceipt(round: nat, name: Name, rest: string)
    requires name.Receipt? && Key(name) == RoundPrefix(round) + rest
    ensures name.round == round
  {
    hide Itoa;
    var tail := Itoa(name.attempt) + ("_verify_" + name.node);
    assert Key(name) == Itoa(name.round) + ("-" + tail);
    assert RoundPrefix(round) + rest == Itoa(round) + ("-" + rest);
    NumberThen(name.round, round, "-" + tail, "-" + rest);
  }

  /** The same for a round's auto-fold attestations. */
  lemma AutoFoldPrefixExact(round: nat, name: Name)
    ensures AutoFoldPrefix(round) <= Key(name) <==> name.AutoFold? && name.round == round
  {
    KindIsReadable(name);
    if AutoFoldPrefix(round) <= Key(name) {
      assert Key(name)[0] == "auto_fold-"[0];
      PrefixSplit(AutoFoldPrefix(round), Key(name));
      RoundOfAutoFold(round, name, Key(name)[|AutoFoldPrefix(round)|..]);
    }
    if name.AutoFold? && name.round == round { AutoFoldHasPrefix(name); }
  }

  lemma AutoFoldHasPrefix(name: Name)
    requires name.AutoFold?
    ensures AutoFoldPrefix(name.round) <= Key(name)
  {
    hide Itoa;
    assert Key(name) == AutoFoldPrefix(name.round) + name.node;
  }

  lemma RoundOfAutoFold(round: nat, name: Name, rest: string)
    requires name.AutoFold? && Key(name) == AutoFoldPrefix(round) + rest
    ensures name.round == round
  {
    hide Itoa;
    assert AutoFoldPrefix(round) + rest == "auto_fold-" + (Itoa(round) + ("-" + rest));
    Behind(Itoa(name.round) + ("-" + name.node), Itoa(round) + ("-" + rest), "auto_fold-");
    NumberThen(name.round, round, "-" + name.node, "-" + rest);
  }
}
