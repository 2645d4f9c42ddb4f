/** Value get: n remote bytes land in a zeroed register, at the end of it on a
    big-endian machine, and the register is then read as one unsigned number. */
module ValGet {
  type Byte = x: int | 0 <= x < 256

  datatype Endian = Big | Little

  function Pow256(n: nat): nat { if n == 0 then 1 else 256 * Pow256(n - 1) }

  /** The unsigned number that these bytes are in memory order. */
  function Unsigned(bytes: seq<Byte>, e: Endian): nat
    decreases |bytes|
  {
    if bytes == [] then 0
    else if e.Little? then bytes[0] + 256 * Unsigned(bytes[1..], e)
    else 256 * Unsigned(bytes[..|bytes| - 1], e) + bytes[|bytes| - 1]
  }

  function Zeros(k: nat): (z: seq<Byte>)
    ensures |z| == k && forall i :: 0 <= i < k ==> z[i] == 0
  {
    seq(k, _ => 0)
  }

  function Offset(width: nat, n: nat, e: Endian): nat
    requires n <= width
  {
    if e.Big? then width - n else 0
  }

  /** The register after n bytes have landed at the given offset. */
  function Register(width: nat, at: nat, bytes: seq<Byte>): (r: seq<Byte>)
    requires at + |bytes| <= width
    ensures |r| == width
  {
    Zeros(at) + bytes + Zeros(width - at - |bytes|)
  }

  // ----- arithmetic of zero bytes --------------------------------------------------

  lemma {:induction false} ZerosAreZero(k: nat, e: Endian)
    ensures Unsigned(Zeros(k), e) == 0
  {
    if k > 0 {
      ZerosAreZero(k - 1, e);
      assert Zeros(k)[1..] == Zeros(k - 1) && Zeros(k)[..k - 1] == Zeros(k - 1);
    }
  }

  lemma {:induction false} PaddedLittle(bytes: seq<Byte>, k: nat)
    ensures Unsigned(bytes + Zeros(k), Little) == Unsigned(bytes, Little)
    decreases |bytes|
  {
    if bytes == [] {
      assert bytes + Zeros(k) == Zeros(k);
      ZerosAreZero(k, Little);
    } else {
      assert (bytes + Zeros(k))[1..] == bytes[1..] + Zeros(k);
      PaddedLittle(bytes[1..], k);
    }
  }

  lemma {:induction false} PaddedBig(bytes: seq<Byte>, k: nat)
    ensures Unsigned(Zeros(k) + bytes, Big) == Unsigned(bytes, Big)
    decreases |bytes|
  {
    if bytes == [] {
      assert Zeros(k) + bytes == Zeros(k);
      ZerosAreZero(k, Big);
    } else {
      var n := |bytes|;
      assert (Zeros(k) + bytes)[..k + n - 1] == Zeros(k) + bytes[..n - 1];
      PaddedBig(bytes[..n - 1], k);
    }
  }

  lemma {:induction false} TrailingBig(bytes: seq<Byte>, k: nat)
    ensures Unsigned(bytes + Zeros(k), Big) == Unsigned(bytes, Big) * Pow256(k)
  {
    if k == 0 {
      assert bytes + Zeros(0) == bytes;
    } else {
      assert (bytes + Zeros(k))[..|bytes| + k - 1] == bytes + Zeros(k - 1);
      TrailingBig(bytes, k - 1);
      Regroup(Unsigned(bytes, Big), Pow256(k - 1));
    }
  }

  lemma {:induction false} Regroup(u: nat, p: nat)
    ensures 256 * (u * p) == u * (256 * p)
  {
  }

  /** The widened value is the value of the n bytes, for every width and either byte
      order. */
  lemma {:induction false} WideningExact(width: nat, bytes: seq<Byte>, e: Endian)
    requires |bytes| <= width
    ensures Unsigned(Register(width, Offset(width, |bytes|, e), bytes), e) == Unsigned(bytes, e)
  {
    var r := Register(width, Offset(width, |bytes|, e), bytes);
    if e.Little? {
      assert r == bytes + Zeros(width - |bytes|);
      PaddedLittle(bytes, width - |bytes|);
    } else {
      assert r == Zeros(width - |bytes|) + bytes;
      PaddedBig(bytes, width - |bytes|);
    }
  }

  /** Without the offset a big-endian register would read the value scaled up by the
      missing bytes. */
  lemma {:induction false} BigNeedsOffset(width: nat, bytes: seq<Byte>)
    requires |bytes| <= width
    ensures Unsigned(Register(width, 0, bytes), Big) == Unsigned(bytes, Big) * Pow256(width - |bytes|)
  {
    assert Register(width, 0, bytes) == bytes + Zeros(width - |bytes|);
    TrailingBig(bytes, width - |bytes|);
  }

  /** The value fits in n bytes. */
  lemma {:induction false} UnsignedFits(bytes: seq<Byte>, e: Endian)
    ensures Unsigned(bytes, e) < Pow256(|bytes|)
    decreases |bytes|
  {
    if bytes != [] {
      if e.Little? { UnsignedFits(bytes[1..], e); } else { UnsignedFits(bytes[..|bytes| - 1], e); }
    }
  }

  function Reversed(bytes: seq<Byte>): (r: seq<Byte>)
    ensures |r| == |bytes| && forall i :: 0 <= i < |bytes| ==> r[i] == bytes[|bytes| - 1 - i]
  {
    seq(|bytes|, i requires 0 <= i < |bytes| => bytes[|bytes| - 1 - i])
  }

  /** The two byte orders read the same number in opposite directions. */
  lemma {:induction false} OrdersMirror(bytes: seq<Byte>)
    ensures Unsigned(Reversed(bytes), Big) == Unsigned(bytes, Little)
    decreases |bytes|
  {
    if bytes != [] {
      var n := |bytes|;
      assert Reversed(bytes)[..n - 1] == Reversed(bytes[1..]);
      OrdersMirror(bytes[1..]);
    }
  }

  /** In the little-endian order byte k counts 256^k times. */
  lemma {:induction false} LittleByteCounts(bytes: seq<Byte>, k: nat, b: Byte)
    requires k < |bytes|
    ensures Unsigned(bytes[k := b], Little) - Unsigned(bytes, Little) == (b - bytes[k]) * Pow256(k)
    decreases k
  {
    if k > 0 {
      assert bytes[k := b][1..] == bytes[1..][k - 1 := b];
      LittleByteCounts(bytes[1..], k - 1, b);
      Scaled(b - bytes[k], Pow256(k - 1));
    } else {
      assert bytes[0 := b][1..] == bytes[1..];
    }
  }

  lemma {:induction false} Scaled(d: int, p: nat)
    ensures 256 * (d * p) == d * (256 * p)
  {
  }

  // ----- the handle -------------------------------------------------------------------

  /** An outstanding value get.  The transfer fills the register in any order. */
  class Handle {
    const value: array<Byte>
    const dest: nat
    const endian: Endian
    ghost const remote: seq<Byte>
    ghost var landed: set<nat>

    ghost predicate Valid()
      reads this, value
    {
      && dest + |remote| <= value.Length && dest == Offset(value.Length, |remote|, endian)
      && (forall j :: 0 <= j < value.Length ==>
            value[j] == if dest <= j < dest + |remote| && j - dest in landed then remote[j - dest] else 0)
    }

    /** gasnet_get_nb_val */
    constructor (width: nat, endian: Endian, ghost remote: seq<Byte>, nbytes: nat)
      requires nbytes == |remote| <= width
      ensures Valid() && fresh(value) && value.Length == width && this.endian == endian && this.remote == remote && landed == {}
    {
      value := new Byte[width](_ => 0);
      dest := if endian.Big? then width - nbytes else 0;
      this.endian := endian;
      this.remote := remote;
      landed := {};
    }

    /** One byte of the transfer arrives. */
    method Land(k: nat, b: Byte)
      requires Valid() && k < |remote| && b == remote[k]
      modifies this, value
      ensures Valid() && landed == old(landed) + {k}
    {
      value[dest + k] := b;
      landed := landed + {k};
    }

    /** gasnet_wait_syncnb_valget, once the event is done. */
    method Wait() returns (result: nat)
      requires Valid() && forall k :: 0 <= k < |remote| ==> k in landed
      ensures result == Unsigned(remote, endian)
    {
      result := ReadValue(value, endian);
      assert value[..] == Register(value.Length, dest, remote);
      WideningExact(value.Length, remote, endian);
    }
  }

  /** The machine reads the register as one number. */
  method ReadValue(value: array<Byte>, endian: Endian) returns (result: nat)
    ensures result == Unsigned(value[..], endian)
  {
    result := 0;
    if endian.Big? {
      var i := 0;
      while i < value.Length
        invariant 0 <= i <= value.Length && result == Unsigned(value[..i], Big)
      {
        result := 256 * result + value[i];
        i := i + 1;
        assert value[..i][..i - 1] == value[..i - 1];
      }
      assert value[..i] == value[..];
    } else {
      var i := value.Length;
      assert value[i..] == [];
      while i > 0
        invariant 0 <= i <= value.Length && result == Unsigned(value[i..], Little)
      {
        i := i - 1;
        result := 256 * result + value[i];
        assert value[i..][1..] == value[i + 1..];
      }
      assert value[0..] == value[..];
    }
  }
}
