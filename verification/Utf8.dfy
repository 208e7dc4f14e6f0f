/** UTF-8 as section 3 of RFC 3629 defines it, and where a byte string may be cut. */
module Utf8 {
  import opened Prelude

  type Byte = b: int | 0 <= b < 256

  predicate Continuation(b: Byte) {
    0x80 <= b < 0xC0
  }

  /** The octets of one character, after the syntax in section 4 of RFC 3629. */
  predicate IsCharacter(b: seq<Byte>) {
    match |b|
    case 1 => b[0] < 0x80
    case 2 => 0xC2 <= b[0] < 0xE0 && Continuation(b[1])
    case 3 =>
      && 0xE0 <= b[0] < 0xF0 && Continuation(b[1]) && Continuation(b[2])
      && (b[0] == 0xE0 ==> b[1] >= 0xA0) && (b[0] == 0xED ==> b[1] < 0xA0)
    case 4 =>
      && 0xF0 <= b[0] < 0xF5 && Continuation(b[1]) && Continuation(b[2]) && Continuation(b[3])
      && (b[0] == 0xF0 ==> b[1] >= 0x90) && (b[0] == 0xF4 ==> b[1] < 0x90)
    case _ => false
  }

  type Character = b: seq<Byte> | IsCharacter(b) witness [0]

  type Text = seq<Character>

  /** The octets of a text. */
  function Bytes(s: Text): seq<Byte> {
    if s == [] then [] else Bytes(s[..|s| - 1]) + s[|s| - 1]
  }

  function Size(s: Text): nat {
    |Bytes(s)|
  }

  /** Whether a byte string may be cut before byte `i`. */
  predicate Boundary(b: seq<Byte>, i: nat)
    requires i <= |b|
  {
    i == 0 || i == |b| || !Continuation(b[i])
  }

  lemma {:induction false} BytesAppend(s: Text, t: Text)
    ensures Bytes(s + t) == Bytes(s) + Bytes(t)
  {
    if t == [] {
      assert s + t == s;
    } else {
      var n := |t| - 1;
      BytesAppend(s, t[..n]);
      assert (s + t)[..|s + t| - 1] == s + t[..n];
    }
  }

  lemma SizeOfPrefix(s: Text, k: nat)
    requires k <= |s|
    ensures Bytes(s) == Bytes(s[..k]) + Bytes(s[k..]) && Size(s[..k]) <= Size(s)
  {
    BytesAppend(s[..k], s[k..]);
    assert s == s[..k] + s[k..];
  }

  /** A boundary is the end of some whole number of characters. */
  lemma {:induction false} BoundaryEndsAPrefix(s: Text, i: nat) returns (k: nat)
    requires i <= Size(s) && Boundary(Bytes(s), i)
    ensures k <= |s| && Size(s[..k]) == i && Bytes(s)[..i] == Bytes(s[..k])
  {
    if i == Size(s) {
      k := |s|;
      assert s[..k] == s;
    } else {
      var n := |s| - 1;
      var before := Bytes(s[..n]);
      assert Bytes(s) == before + s[n];
      forall j | |before| < j < |Bytes(s)| ensures Continuation(Bytes(s)[j]) {
        assert Bytes(s)[j] == s[n][j - |before|];
      }
      assert i < |before| ==> Bytes(s)[i] == before[i];
      k := BoundaryEndsAPrefix(s[..n], i);
      assert s[..n][..k] == s[..k];
      assert Bytes(s)[..i] == before[..i];
    }
  }

  lemma {:induction false} PrefixEndsAtABoundary(s: Text, k: nat)
    requires k <= |s|
    ensures Size(s[..k]) <= Size(s) && Boundary(Bytes(s), Size(s[..k]))
  {
    if k == |s| {
      assert s[..k] == s;
    } else {
      var n := |s| - 1;
      PrefixEndsAtABoundary(s[..n], k);
      assert s[..n][..k] == s[..k];
      assert !Continuation(s[n][0]);
      assert Bytes(s) == Bytes(s[..n]) + s[n];
    }
  }

  /** How many characters fit a byte limit. */
  function Fitting(s: Text, limit: nat): (k: nat)
    ensures k <= |s| && Size(s[..k]) <= limit
    ensures k < |s| ==> Size(s[..k + 1]) > limit
  {
    if Size(s) <= limit then assert s[..|s|] == s; |s|
    else
      var k := Fitting(s[..|s| - 1], limit);
      assert s[..|s| - 1][..k] == s[..k];
      assert k + 1 < |s| ==> s[..|s| - 1][..k + 1] == s[..k + 1];
      assert k + 1 == |s| ==> s[..k + 1] == s;
      k
  }

  function Clipped(s: Text, limit: nat): Text {
    s[..Fitting(s, limit)]
  }

  lemma StrictlyGrows(s: Text, j: nat, k: nat)
    requires j < k <= |s|
    ensures Size(s[..j]) < Size(s[..k])
  {
    SizeOfPrefix(s[..k], j + 1);
    assert s[..k][..j + 1] == s[..j + 1] && s[..j + 1][..j] == s[..j];
  }

  /** Clipping keeps what fits, and otherwise gives up less than the four bytes of one character. */
  lemma ClippingLosesLittle(s: Text, limit: nat)
    ensures Clipped(s, limit) <= s && Size(Clipped(s, limit)) <= limit
    ensures if Size(s) <= limit then Clipped(s, limit) == s else limit - 4 < Size(Clipped(s, limit))
  {
    var k := Fitting(s, limit);
    assert s[..|s|] == s;
    if Size(s) > limit {
      assert s[..k + 1][..k] == s[..k];
      assert Size(s[..k + 1]) == Size(s[..k]) + |s[k]|;
    }
  }

  /** Step back from the limit to the nearest boundary: the bytes before it are the clipped text. */
  method FloorBoundary(bytes: seq<Byte>, limit: nat, ghost s: Text) returns (end: nat)
    requires bytes == Bytes(s)
    ensures end <= |bytes| && bytes[..end] == Bytes(Clipped(s, limit))
  {
    end := if |bytes| < limit then |bytes| else limit;
    ghost var start := end;
    while !Boundary(bytes, end)
      invariant end <= start <= |bytes|
      invariant forall i :: end < i <= start ==> !Boundary(bytes, i)
      decreases end
    {
      end := end - 1;
    }
    ghost var k := BoundaryEndsAPrefix(s, end);
    ghost var fitting := Fitting(s, limit);
    PrefixEndsAtABoundary(s, fitting);
    if k < fitting {
      StrictlyGrows(s, k, fitting);
    } else if fitting < k {
      if fitting + 1 < k { StrictlyGrows(s, fitting + 1, k); }
    }
  }
}
