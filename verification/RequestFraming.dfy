/** Requests are recognised by the digest of their parts, each part preceded by its length. Before
    hashing, two requests frame alike only if they are the same request. */
module RequestFraming {
  import opened Prelude

  type Byte = b: int | 0 <= b < 256
  type Bytes = seq<Byte>

  function Power(k: nat): nat {
    if k == 0 then 1 else 256 * Power(k - 1)
  }

  /** The lengths fit the eight octets of a 64-bit size. */
  function BigEndian(n: nat, k: nat): (b: Bytes)
    ensures |b| == k
  {
    if k == 0 then [] else BigEndian(n / 256, k - 1) + [n % 256]
  }

  function ValueOf(b: Bytes): nat {
    if b == [] then 0 else 256 * ValueOf(b[..|b| - 1]) + b[|b| - 1]
  }

  lemma {:induction false} BigEndianReadsBack(n: nat, k: nat)
    requires n < Power(k)
    ensures ValueOf(BigEndian(n, k)) == n
  {
    if k > 0 {
      BigEndianReadsBack(n / 256, k - 1);
      var b := BigEndian(n / 256, k - 1);
      assert (b + [n % 256])[..|b + [n % 256]| - 1] == b;
    }
  }

  function Framed(part: Bytes): Bytes {
    BigEndian(|part|, 8) + part
  }

  function Frame(parts: seq<Bytes>): Bytes {
    if parts == [] then [] else Framed(parts[0]) + Frame(parts[1..])
  }

  /** Read one framed part after another; None when the octets do not add up. */
  function Unframe(b: Bytes): Option<seq<Bytes>>
    decreases |b|
  {
    if b == [] then Some([])
    else if |b| < 8 || |b| < 8 + ValueOf(b[..8]) then None
    else
      var n := 8 + ValueOf(b[..8]);
      match Unframe(b[n..])
      case None => None
      case Some(rest) => Some([b[8..n]] + rest)
  }

  lemma UnframeReadsOne(part: Bytes, rest: Bytes)
    requires |part| < Power(8)
    ensures
      var b := Framed(part) + rest;
      && |b| >= 8 && ValueOf(b[..8]) == |part| && 8 + |part| <= |b|
      && b[8..8 + |part|] == part && b[8 + |part|..] == rest
  {
    BigEndianReadsBack(|part|, 8);
    assert (Framed(part) + rest)[..8] == BigEndian(|part|, 8);
  }

  /** Unframing undoes framing, for every list of parts whose lengths fit 64 bits. */
  lemma {:induction false} UnframeUndoesFrame(parts: seq<Bytes>)
    requires forall i :: 0 <= i < |parts| ==> |parts[i]| < Power(8)
    ensures Unframe(Frame(parts)) == Some(parts)
  {
    if parts != [] {
      UnframeUndoesFrame(parts[1..]);
      UnframeReadsOne(parts[0], Frame(parts[1..]));
      assert parts == [parts[0]] + parts[1..];
    }
  }

  lemma FramingIsInjective(xs: seq<Bytes>, ys: seq<Bytes>)
    requires forall i :: 0 <= i < |xs| ==> |xs[i]| < Power(8)
    requires forall i :: 0 <= i < |ys| ==> |ys[i]| < Power(8)
    requires Frame(xs) == Frame(ys)
    ensures xs == ys
  {
    UnframeUndoesFrame(xs);
    UnframeUndoesFrame(ys);
  }

  // ----------------------------------------------------------------- requests

  /** A positive revision in decimal digits. */
  function Decimal(n: nat): Bytes {
    if n < 10 then [0x30 + n] else Decimal(n / 10) + [0x30 + n % 10]
  }

  function DecimalValue(b: Bytes): int {
    if b == [] then 0 else 10 * DecimalValue(b[..|b| - 1]) + (b[|b| - 1] as int - 0x30)
  }

  lemma {:induction false} DecimalReadsBack(n: nat)
    ensures DecimalValue(Decimal(n)) == n
  {
    if n >= 10 {
      DecimalReadsBack(n / 10);
      var b := Decimal(n / 10);
      assert (b + [0x30 + n % 10])[..|b + [0x30 + n % 10]| - 1] == b;
    } else {
      assert [0x30 + n][..0] == [];
    }
  }

  datatype Request =
    | RouteInitial(conversation: Bytes, revision: nat)
    | PlanInitial(operation: Bytes, decision: Bytes, revision: nat, plan: Bytes)
    | BindContinuation(operation: Bytes, conversation: Bytes, revision: nat, session: Bytes, sessionRevision: nat, turn: Bytes)
    | PlanContinuation(operation: Bytes, decision: Bytes, revision: nat, plan: Bytes, session: Bytes, snapshot: Bytes, pack: Bytes)

  function Parts(r: Request): seq<Bytes> {
    match r
    case RouteInitial(conversation, revision) => [conversation, Decimal(revision)]
    case PlanInitial(operation, decision, revision, plan) => [operation, decision, Decimal(revision), plan]
    case BindContinuation(operation, conversation, revision, session, sessionRevision, turn) =>
      [operation, conversation, Decimal(revision), session, Decimal(sessionRevision), turn]
    case PlanContinuation(operation, decision, revision, plan, session, snapshot, pack) =>
      [operation, decision, Decimal(revision), plan, session, snapshot, pack]
  }

  predicate Sized(parts: seq<Bytes>) {
    forall i :: 0 <= i < |parts| ==> |parts[i]| < Power(8)
  }

  lemma SameParts(r: Request, q: Request)
    requires Parts(r) == Parts(q)
    ensures r == q
  {
    DecimalReadsBack(r.revision);
    DecimalReadsBack(q.revision);
    assert |Parts(r)| == |Parts(q)|;
    match r {
      case RouteInitial(_, _) => assert Parts(r)[1] == Parts(q)[1] && Parts(r)[0] == Parts(q)[0];
      case PlanInitial(_, _, _, _) =>
        assert forall i :: 0 <= i < 4 ==> Parts(r)[i] == Parts(q)[i];
      case BindContinuation(_, _, _, _, _, _) =>
        assert forall i :: 0 <= i < 6 ==> Parts(r)[i] == Parts(q)[i];
        DecimalReadsBack(r.sessionRevision);
        DecimalReadsBack(q.sessionRevision);
      case PlanContinuation(_, _, _, _, _, _, _) =>
        assert forall i :: 0 <= i < 7 ==> Parts(r)[i] == Parts(q)[i];
    }
  }

  /** A stored request is matched by the identical request only, even across the kinds of request. */
  lemma RequestsAreRecognised(r: Request, q: Request)
    requires Sized(Parts(r)) && Sized(Parts(q))
    ensures Frame(Parts(r)) == Frame(Parts(q)) <==> r == q
  {
    if Frame(Parts(r)) == Frame(Parts(q)) {
      FramingIsInjective(Parts(r), Parts(q));
      SameParts(r, q);
    }
  }

  /** Feed the parts to the hash one after another. */
  method Feed(parts: seq<Bytes>) returns (hashed: Bytes)
    ensures hashed == Frame(parts)
  {
    hashed := [];
    for i := 0 to |parts|
      invariant hashed + Frame(parts[i..]) == Frame(parts)
    {
      assert parts[i..][0] == parts[i] && parts[i..][1..] == parts[i + 1..];
      hashed := hashed + BigEndian(|parts[i]|, 8);
      hashed := hashed + parts[i];
    }
  }
}
