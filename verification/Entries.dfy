/** Log entries and their byte encoding (internal/game/action.go, internal/game/log.go). */
module Entries {
  import opened Bytes

  const FOLD: byte := 0
  const CHECK: byte := 1
  const CALL: byte := 2
  const RAISE: byte := 3

  datatype Action = Action(kind: byte, amount: uint64)

  predicate ShortStrings(sigs: seq<bytes>) {
    forall i :: 0 <= i < |sigs| ==> |sigs[i]| < 0x1_0000
  }

  datatype Entry = Entry(
    round: uint64,
    player: byte,
    action: Action,
    signature: bytes,
    coSigners: seq<byte>,
    coSignatures: seq<bytes>,
    data: bytes)
  {
    /** A fold without a self-signature, carried by co-signatures instead. */
    predicate IsAutoFold() {
      action.kind == FOLD && signature == []
    }

    /** Every length fits the field that encodes it. */
    predicate Sized() {
      && |signature| < 0x1_0000
      && |data| < 0x1_0000_0000
      && (IsAutoFold() ==>
            |coSigners| < 0x100 && |coSignatures| == |coSigners| && ShortStrings(coSignatures))
    }
  }

  // ---------------------------------------------------------------- encoding

  function ActionBytes(a: Action): (b: bytes)
    ensures |b| == 9
  {
    [a.kind] + BigEndian(8, a.amount)
  }

  datatype Parsed = TooShort | Parsed(action: Action)

  function UnmarshalAction(b: bytes): Parsed {
    if |b| < 9 then TooShort
    else
      var v := Value(b[1..9]);
      ValueBound(b[1..9]);
      Parsed(Action(b[0], v))
  }

  lemma {:induction false} ValueBound(b: bytes)
    ensures Value(b) < Pow256(|b|)
    ensures |b| == 8 ==> Value(b) < TWO64
  {
    if b != [] { ValueBound(b[..|b| - 1]); }
    PowersOf256();
  }

  lemma PowersOf256()
    ensures Pow256(1) == 0x100 && Pow256(2) == 0x1_0000 && Pow256(4) == 0x1_0000_0000 && Pow256(8) == TWO64
  {
    assert Pow256(3) == 0x100_0000;
    assert Pow256(5) == 0x100_0000_0000;
    assert Pow256(6) == 0x1_0000_0000_0000;
    assert Pow256(7) == 0x100_0000_0000_0000;
  }

  /** Decoding undoes encoding, whatever bytes follow. */
  lemma ActionRoundTrip(a: Action, rest: bytes)
    ensures UnmarshalAction(ActionBytes(a) + rest) == Parsed(a)
  {
    var b := ActionBytes(a) + rest;
    assert b[1..9] == BigEndian(8, a.amount);
    PowersOf256();
    ValueOfBigEndian(8, a.amount);
  }

  function CoSigBytes(signers: seq<byte>, sigs: seq<bytes>): bytes
    requires |signers| <= |sigs|
  {
    if signers == [] then []
    else [signers[0]] + BigEndian(2, |sigs[0]|) + sigs[0] + CoSigBytes(signers[1..], sigs[1..])
  }

  function Header(e: Entry): (b: bytes)
    ensures |b| == 20
  {
    BigEndian(8, e.round) + [e.player] + ActionBytes(e.action) + BigEndian(2, |e.signature|)
  }

  function CoSigSection(e: Entry): bytes
    requires e.IsAutoFold() ==> |e.coSigners| <= |e.coSignatures|
  {
    if e.IsAutoFold() then [|e.coSigners| % 256] + CoSigBytes(e.coSigners, e.coSignatures) else []
  }

  /** A string preceded by its length in `w` bytes. */
  function Framed(w: nat, d: bytes): bytes {
    BigEndian(w, |d|) + d
  }

  /** The encoding that signatures and hashes cover. A length that does not fit its field is cut off. */
  function EntryBytes(e: Entry): bytes
    requires e.IsAutoFold() ==> |e.coSigners| <= |e.coSignatures|
  {
    Header(e) + e.signature + CoSigSection(e) + Framed(4, e.data)
  }

  predicate AllSized(log: seq<Entry>) {
    forall i :: 0 <= i < |log| ==> log[i].Sized()
  }

  /** Every auto-fold has a signature for each co-signer; without one the encoder would panic. */
  predicate AllPaired(log: seq<Entry>) {
    forall i :: 0 <= i < |log| ==> (log[i].IsAutoFold() ==> |log[i].coSigners| <= |log[i].coSignatures|)
  }

  function LogBytes(log: seq<Entry>): bytes
    requires AllPaired(log)
  {
    if log == [] then [] else EntryBytes(log[0]) + LogBytes(log[1..])
  }

  // ------------------------------------------------------ unique decodability

  /** The fields the encoding covers: a self-signed entry's co-signers are not encoded. */
  function Encoded(e: Entry): (c: Entry)
    ensures e.Sized() ==> c.Sized()
    ensures (e.coSigners == [] && e.coSignatures == []) || e.IsAutoFold() ==> c == e
    ensures c.IsAutoFold() == e.IsAutoFold()
  {
    if e.IsAutoFold() then e else e.(coSigners := [], coSignatures := [])
  }

  lemma Cancel(a: bytes, x: bytes, b: bytes, y: bytes)
    requires a + x == b + y && |a| == |b|
    ensures a == b && x == y
  {
    assert a == (a + x)[..|a|] == (b + y)[..|b|] == b;
    assert x == (a + x)[|a|..] == (b + y)[|b|..] == y;
  }

  lemma HeaderInjective(e: Entry, f: Entry)
    requires e.Sized() && f.Sized() && Header(e) == Header(f)
    ensures e.round == f.round && e.player == f.player && e.action == f.action && |e.signature| == |f.signature|
  {
    PowersOf256();
    var b, c := Header(e), Header(f);
    assert b[..8] == BigEndian(8, e.round) && c[..8] == BigEndian(8, f.round);
    BigEndianInjective(8, e.round, f.round);
    assert b[8] == e.player && c[8] == f.player;
    assert b[9..18] == ActionBytes(e.action) && c[9..18] == ActionBytes(f.action);
    ActionRoundTrip(e.action, []);
    ActionRoundTrip(f.action, []);
    assert ActionBytes(e.action) + [] == ActionBytes(f.action) + [];
    assert b[18..] == BigEndian(2, |e.signature|) && c[18..] == BigEndian(2, |f.signature|);
    BigEndianInjective(2, |e.signature|, |f.signature|);
  }

  lemma {:induction false} CoSigPrefixFree(s: seq<byte>, sigs: seq<bytes>, x: bytes,
                                           t: seq<byte>, tigs: seq<bytes>, y: bytes)
    requires |s| == |sigs| == |t| == |tigs| && ShortStrings(sigs) && ShortStrings(tigs)
    requires CoSigBytes(s, sigs) + x == CoSigBytes(t, tigs) + y
    ensures s == t && sigs == tigs && x == y
  {
    if s == [] {
      assert CoSigBytes(s, sigs) + x == x && CoSigBytes(t, tigs) + y == y;
    } else {
      var h, k := [s[0]] + BigEndian(2, |sigs[0]|), [t[0]] + BigEndian(2, |tigs[0]|);
      var u, v := CoSigBytes(s[1..], sigs[1..]) + x, CoSigBytes(t[1..], tigs[1..]) + y;
      assert CoSigBytes(s, sigs) + x == h + (sigs[0] + u);
      assert CoSigBytes(t, tigs) + y == k + (tigs[0] + v);
      Cancel(h, sigs[0] + u, k, tigs[0] + v);
      assert h[1..] == BigEndian(2, |sigs[0]|) && k[1..] == BigEndian(2, |tigs[0]|);
      PowersOf256();
      BigEndianInjective(2, |sigs[0]|, |tigs[0]|);
      Cancel(sigs[0], u, tigs[0], v);
      assert h[0] == s[0] && k[0] == t[0];
      CoSigPrefixFree(s[1..], sigs[1..], x, t[1..], tigs[1..], y);
      assert s == [s[0]] + s[1..] && t == [t[0]] + t[1..];
      assert sigs == [sigs[0]] + sigs[1..] && tigs == [tigs[0]] + tigs[1..];
    }
  }

  lemma Assoc(a: bytes, b: bytes, c: bytes)
    ensures a + b + c == a + (b + c)
  {
  }

  lemma FramedPrefixFree(w: nat, d: bytes, x: bytes, c: bytes, y: bytes)
    requires |d| < Pow256(w) && |c| < Pow256(w)
    requires Framed(w, d) + x == Framed(w, c) + y
    ensures d == c && x == y
  {
    var h, k := BigEndian(w, |d|), BigEndian(w, |c|);
    Assoc(h, d, x);
    Assoc(k, c, y);
    Cancel(h, d + x, k, c + y);
    BigEndianInjective(w, |d|, |c|);
    Cancel(d, x, c, y);
  }

  lemma EntryBytesSplit(e: Entry, x: bytes)
    requires e.Sized()
    ensures EntryBytes(e) + x == Header(e) + (e.signature + (CoSigSection(e) + (Framed(4, e.data) + x)))
  {
    var h, s, c, d := Header(e), e.signature, CoSigSection(e), Framed(4, e.data);
    calc {
      h + s + c + d + x;
      { Assoc(h + s + c, d, x); Assoc(h + s, c, d + x); Assoc(h, s, c + (d + x)); }
      h + (s + (c + (d + x)));
    }
  }

  lemma CoSigSectionPrefixFree(e: Entry, d: bytes, f: Entry, c: bytes)
    requires e.Sized() && f.Sized() && e.IsAutoFold() && f.IsAutoFold()
    requires CoSigSection(e) + d == CoSigSection(f) + c
    ensures e.coSigners == f.coSigners && e.coSignatures == f.coSignatures && d == c
  {
    var p, q := CoSigBytes(e.coSigners, e.coSignatures), CoSigBytes(f.coSigners, f.coSignatures);
    Assoc([|e.coSigners| % 256], p, d);
    Assoc([|f.coSigners| % 256], q, c);
    Cancel([|e.coSigners| % 256], p + d, [|f.coSigners| % 256], q + c);
    assert [|e.coSigners| % 256][0] == [|f.coSigners| % 256][0];
    CoSigPrefixFree(e.coSigners, e.coSignatures, d, f.coSigners, f.coSignatures, c);
  }

  /** The encoding is prefix-free: two entries whose bytes begin one common string agree
      on every encoded field, and the rest of the string is the same. */
  lemma EntryPrefixFree(e: Entry, x: bytes, f: Entry, y: bytes)
    requires e.Sized() && f.Sized()
    requires EntryBytes(e) + x == EntryBytes(f) + y
    ensures Encoded(e) == Encoded(f) && x == y
  {
    EntryBytesSplit(e, x);
    EntryBytesSplit(f, y);
    var d, c := Framed(4, e.data) + x, Framed(4, f.data) + y;
    Cancel(Header(e), e.signature + (CoSigSection(e) + d), Header(f), f.signature + (CoSigSection(f) + c));
    HeaderInjective(e, f);
    Cancel(e.signature, CoSigSection(e) + d, f.signature, CoSigSection(f) + c);
    if e.IsAutoFold() {
      CoSigSectionPrefixFree(e, d, f, c);
    } else {
      assert CoSigSection(e) + d == d && CoSigSection(f) + c == c;
    }
    PowersOf256();
    FramedPrefixFree(4, e.data, x, f.data, y);
  }

  function EncodedLog(log: seq<Entry>): (c: seq<Entry>)
    ensures |c| == |log| && forall i :: 0 <= i < |log| ==> c[i] == Encoded(log[i])
  {
    seq(|log|, i requires 0 <= i < |log| => Encoded(log[i]))
  }

  lemma EncodedLogCons(log: seq<Entry>)
    requires log != []
    ensures EncodedLog(log) == [Encoded(log[0])] + EncodedLog(log[1..])
  {
  }

  lemma EncodedBytes(e: Entry)
    requires e.Sized()
    ensures Encoded(e).Sized() && EntryBytes(Encoded(e)) == EntryBytes(e)
  {
  }

  lemma LogSize(log: seq<Entry>)
    requires AllSized(log)
    ensures log == [] || |LogBytes(log)| >= 24
  {
  }

  lemma {:induction false} LogBytesOfEncoded(log: seq<Entry>)
    requires AllSized(log)
    ensures AllSized(EncodedLog(log)) && LogBytes(EncodedLog(log)) == LogBytes(log)
  {
    if log != [] {
      EncodedBytes(log[0]);
      LogBytesOfEncoded(log[1..]);
      assert EncodedLog(log)[1..] == EncodedLog(log[1..]);
    }
  }

  /** Two logs followed by short tails: equal bytes force equal entries and equal tails.
      No tail of up to 18 bytes can be mistaken for a further entry. */
  lemma {:induction false} LogTailUnique(a: seq<Entry>, x: bytes, b: seq<Entry>, y: bytes)
    requires AllSized(a) && AllSized(b) && |x| <= 18 && |y| <= 18
    requires LogBytes(a) + x == LogBytes(b) + y
    ensures EncodedLog(a) == EncodedLog(b) && x == y
  {
    if a == [] || b == [] {
      LogSize(a);
      LogSize(b);
      assert a == [] && b == [];
      assert LogBytes(a) + x == x && LogBytes(b) + y == y;
    } else {
      Assoc(EntryBytes(a[0]), LogBytes(a[1..]), x);
      Assoc(EntryBytes(b[0]), LogBytes(b[1..]), y);
      EntryPrefixFree(a[0], LogBytes(a[1..]) + x, b[0], LogBytes(b[1..]) + y);
      LogTailUnique(a[1..], x, b[1..], y);
      EncodedLogCons(a);
      EncodedLogCons(b);
    }
  }

  /** Two logs have the same bytes exactly when they agree on every encoded field. */
  lemma LogBytesInjective(a: seq<Entry>, b: seq<Entry>)
    requires AllSized(a) && AllSized(b)
    ensures LogBytes(a) == LogBytes(b) <==> EncodedLog(a) == EncodedLog(b)
  {
    if LogBytes(a) == LogBytes(b) { LogTailUnique(a, [], b, []); }
    LogBytesOfEncoded(a);
    LogBytesOfEncoded(b);
  }

  /** Two different entries with the same bytes: the co-signers of a self-signed entry
      are outside the encoding, so they are outside every later signature too. */
  lemma SelfSignedCoSignersNotCovered(e: Entry, signer: byte, sig: bytes)
    requires e.Sized() && !e.IsAutoFold() && e.coSigners == [] && |sig| < 0x1_0000
    ensures var f := e.(coSigners := [signer], coSignatures := [sig]);
            f != e && f.Sized() && EntryBytes(f) == EntryBytes(e)
  {
    assert CoSigSection(e) == CoSigSection(e.(coSigners := [signer], coSignatures := [sig])) == [];
  }

  // ------------------------------------------------------------ signed payloads

  const AUTO_FOLD_TAG: bytes := [97, 117, 116, 111, 95, 102, 111, 108, 100]
  const VERIFY_TAG: bytes := [118, 101, 114, 105, 102, 121]

  function ProposalPayload(log: seq<Entry>, a: Action): bytes
    requires AllSized(log)
  {
    LogBytes(log) + ActionBytes(a)
  }

  function AutoFoldTail(round: uint64, target: byte): (t: bytes)
    ensures |t| == 18
  {
    AUTO_FOLD_TAG + BigEndian(8, round) + [target]
  }

  function AutoFoldPayload(log: seq<Entry>, round: uint64, target: byte): bytes
    requires AllSized(log)
  {
    LogBytes(log) + AutoFoldTail(round, target)
  }

  function ReceiptPayload(hash: bytes, round: uint64): bytes {
    hash + VERIFY_TAG + BigEndian(8, round)
  }

  lemma ProposalPayloadInjective(a: seq<Entry>, x: Action, b: seq<Entry>, y: Action)
    requires AllSized(a) && AllSized(b) && ProposalPayload(a, x) == ProposalPayload(b, y)
    ensures EncodedLog(a) == EncodedLog(b) && x == y
  {
    LogTailUnique(a, ActionBytes(x), b, ActionBytes(y));
    ActionRoundTrip(x, []);
    ActionRoundTrip(y, []);
    assert ActionBytes(x) + [] == ActionBytes(y) + [];
  }

  lemma AutoFoldTailInjective(r: uint64, s: byte, q: uint64, t: byte)
    requires AutoFoldTail(r, s) == AutoFoldTail(q, t)
    ensures r == q && s == t
  {
    var u, v := AutoFoldTail(r, s), AutoFoldTail(q, t);
    assert u[9..17] == BigEndian(8, r) && v[9..17] == BigEndian(8, q);
    assert u[17] == s && v[17] == t;
    PowersOf256();
    BigEndianInjective(8, r, q);
  }

  lemma AutoFoldPayloadInjective(a: seq<Entry>, r: uint64, s: byte, b: seq<Entry>, q: uint64, t: byte)
    requires AllSized(a) && AllSized(b) && AutoFoldPayload(a, r, s) == AutoFoldPayload(b, q, t)
    ensures EncodedLog(a) == EncodedLog(b) && r == q && s == t
  {
    LogTailUnique(a, AutoFoldTail(r, s), b, AutoFoldTail(q, t));
    AutoFoldTailInjective(r, s, q, t);
  }

  /** Every entry carries a 64-byte self-signature or at least one 64-byte co-signature. */
  ghost predicate Signed(e: Entry) {
    && e.Sized()
    && (if e.IsAutoFold()
        then e.coSignatures != [] && forall i :: 0 <= i < |e.coSignatures| ==> |e.coSignatures[i]| == 64
        else |e.signature| == 64)
  }

  lemma SignedLogSize(log: seq<Entry>)
    requires AllSized(log) && forall i :: 0 <= i < |log| ==> Signed(log[i])
    ensures log == [] || |LogBytes(log)| >= 88
  {
    if log != [] && log[0].IsAutoFold() {
      var e := log[0];
      assert |CoSigBytes(e.coSigners, e.coSignatures)| >= 67;
    }
  }

  /** Domain separation: no byte string is a payload of two different kinds, whatever logs
      and values it was built from. */
  lemma PayloadKindsDisjoint(a: seq<Entry>, x: Action, b: seq<Entry>, r: uint64, s: byte, hash: bytes, q: uint64)
    requires AllSized(a) && AllSized(b) && |hash| == 32
    ensures ProposalPayload(a, x) != AutoFoldPayload(b, r, s)
    ensures (forall i :: 0 <= i < |a| ==> Signed(a[i])) ==> ProposalPayload(a, x) != ReceiptPayload(hash, q)
    ensures (forall i :: 0 <= i < |b| ==> Signed(b[i])) ==> AutoFoldPayload(b, r, s) != ReceiptPayload(hash, q)
  {
    if ProposalPayload(a, x) == AutoFoldPayload(b, r, s) {
      LogTailUnique(a, ActionBytes(x), b, AutoFoldTail(r, s));
    }
    if forall i :: 0 <= i < |a| ==> Signed(a[i]) { SignedLogSize(a); }
    if forall i :: 0 <= i < |b| ==> Signed(b[i]) { SignedLogSize(b); }
    assert |ReceiptPayload(hash, q)| == 46;
  }

  // ----------------------------------------------------------------- byte by byte

  /** Signer after signer: its seat, the length of its signature in two bytes, the signature. */
  predicate ListsCoSigners(b: bytes, signers: seq<byte>, sigs: seq<bytes>)
    requires |signers| <= |sigs|
  {
    if signers == [] then b == []
    else
      var n := |sigs[0]|;
      && |b| >= 3 + n && b[0] == signers[0] && Value(b[1..3]) == n % 0x1_0000 && b[3..3 + n] == sigs[0]
      && ListsCoSigners(b[3 + n..], signers[1..], sigs[1..])
  }

  /** The round in eight bytes, the seat, the kind of action, the amount in eight bytes, and the length of the
      signature in two. */
  predicate StartsWith(b: bytes, e: Entry) {
    && |b| >= 20
    && Value(b[..8]) == e.round && b[8] == e.player
    && b[9] == e.action.kind && Value(b[10..18]) == e.action.amount
    && Value(b[18..20]) == |e.signature| % 0x1_0000
  }

  /** An entry in its bytes, place by place: the fixed part, the signature, the co-signers if the kind is 0 and
      there is no signature, and the data behind its length in four bytes. */
  predicate IsLaidOut(b: bytes, e: Entry)
    requires e.IsAutoFold() ==> |e.coSigners| <= |e.coSignatures|
  {
    var n, end := |e.signature|, |b| - |e.data| - 4;
    && StartsWith(b, e)
    && 20 + n <= end && b[20..20 + n] == e.signature
    && (if e.action.kind == 0 && n == 0
        then end > 20 && b[20] == |e.coSigners| % 0x100 && ListsCoSigners(b[21..end], e.coSigners, e.coSignatures)
        else end == 20 + n)
    && Value(b[end..end + 4]) == |e.data| % 0x1_0000_0000 && b[end + 4..] == e.data
  }

  lemma {:induction false} CoSignersListed(signers: seq<byte>, sigs: seq<bytes>)
    requires |signers| <= |sigs|
    ensures ListsCoSigners(CoSigBytes(signers, sigs), signers, sigs)
  {
    if signers != [] {
      var b, n := CoSigBytes(signers, sigs), |sigs[0]|;
      assert b[1..3] == BigEndian(2, n);
      ValueOfTruncated(2, n);
      PowersOf256();
      assert b[3 + n..] == CoSigBytes(signers[1..], sigs[1..]);
      CoSignersListed(signers[1..], sigs[1..]);
    }
  }

  lemma HeaderLaidOut(e: Entry)
    ensures StartsWith(Header(e), e)
  {
    var b := Header(e);
    PowersOf256();
    assert b[..8] == BigEndian(8, e.round);
    ValueOfBigEndian(8, e.round);
    assert b[9..18] == ActionBytes(e.action);
    assert b[9] == b[9..18][0];
    assert b[10..18] == BigEndian(8, e.action.amount);
    ValueOfBigEndian(8, e.action.amount);
    assert b[18..20] == BigEndian(2, |e.signature|);
    ValueOfTruncated(2, |e.signature|);
  }

  lemma StartsWithMore(b: bytes, x: bytes, e: Entry)
    requires StartsWith(b, e)
    ensures StartsWith(b + x, e)
  {
    assert (b + x)[..8] == b[..8] && (b + x)[10..18] == b[10..18] && (b + x)[18..20] == b[18..20];
  }

  lemma FramedLaidOut(d: bytes)
    ensures |Framed(4, d)| == 4 + |d| && Framed(4, d)[4..] == d
    ensures Value(Framed(4, d)[..4]) == |d| % 0x1_0000_0000
  {
    assert Framed(4, d)[..4] == BigEndian(4, |d|);
    ValueOfTruncated(4, |d|);
    PowersOf256();
  }

  /** Every field of an entry is where its place in the encoding says. */
  lemma EntryLaidOut(e: Entry)
    requires e.IsAutoFold() ==> |e.coSigners| <= |e.coSignatures|
    ensures IsLaidOut(EntryBytes(e), e)
  {
    hide Header;
    hide Framed;
    hide BigEndian;
    hide StartsWith;
    hide CoSigBytes;
    hide ListsCoSigners;
    var h, s, c, d := Header(e), e.signature, CoSigSection(e), Framed(4, e.data);
    var b := h + s + c + d;
    HeaderLaidOut(e);
    assert b == h + (s + c + d);
    StartsWithMore(h, s + c + d, e);
    FramedLaidOut(e.data);
    var n, end := |s|, 20 + |s| + |c|;
    assert b[20..20 + n] == s && b[20 + n..end] == c && b[end..] == d;
    assert b[end..end + 4] == d[..4] && b[end + 4..] == d[4..];
    if e.IsAutoFold() {
      CoSignersListed(e.coSigners, e.coSignatures);
      assert b[20] == c[0] && b[21..end] == c[1..] == CoSigBytes(e.coSigners, e.coSignatures);
    }
  }

  // ------------------------------------------------------------------- encoders

  /** `Entry.Bytes`: grows a buffer field by field. */
  method EncodeEntry(e: Entry) returns (buf: bytes)
    requires e.IsAutoFold() ==> |e.coSigners| <= |e.coSignatures|
    ensures buf == EntryBytes(e)
    ensures IsLaidOut(buf, e)
  {
    hide IsLaidOut;
    hide BigEndian;
    EntryLaidOut(e);
    buf := BigEndian(8, e.round) + [e.player];
    buf := buf + ActionBytes(e.action);
    buf := buf + BigEndian(2, |e.signature|);
    buf := buf + e.signature;
    ghost var head := buf;
    if e.IsAutoFold() {
      buf := buf + [|e.coSigners| % 256];
      ghost var start := buf;
      for i := 0 to |e.coSigners|
        invariant buf + CoSigBytes(e.coSigners[i..], e.coSignatures[i..])
               == start + CoSigBytes(e.coSigners, e.coSignatures)
      {
        var sig := e.coSignatures[i];
        ghost var was := buf;
        buf := buf + [e.coSigners[i]];
        buf := buf + BigEndian(2, |sig|);
        buf := buf + sig;
        assert e.coSigners[i..][1..] == e.coSigners[i + 1..] && e.coSignatures[i..][1..] == e.coSignatures[i + 1..];
        assert was + CoSigBytes(e.coSigners[i..], e.coSignatures[i..])
            == buf + CoSigBytes(e.coSigners[i + 1..], e.coSignatures[i + 1..]);
      }
      assert buf == start + CoSigBytes(e.coSigners, e.coSignatures);
      Assoc(head, [|e.coSigners| % 256], CoSigBytes(e.coSigners, e.coSignatures));
    }
    assert buf == head + CoSigSection(e);
    buf := buf + BigEndian(4, |e.data|);
    buf := buf + e.data;
  }

  /** `Log.Bytes`: the concatenation of the entries' encodings. */
  method EncodeLog(log: seq<Entry>) returns (buf: bytes)
    requires AllPaired(log)
    ensures buf == LogBytes(log)
  {
    hide EntryBytes;
    hide IsLaidOut;
    buf := [];
    for i := 0 to |log|
      invariant buf + LogBytes(log[i..]) == LogBytes(log)
    {
      var b := EncodeEntry(log[i]);
      ghost var was := buf;
      buf := buf + b;
      assert log[i..][1..] == log[i + 1..];
      assert was + LogBytes(log[i..]) == buf + LogBytes(log[i + 1..]);
    }
    assert log[|log|..] == [];
  }
}
