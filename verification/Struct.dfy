/** Fixed binary layouts: big-endian integers and records of fields of known widths. */
module Struct {
  import opened Common

  function Pow256(k: nat): nat {
    if k == 0 then 1 else 256 * Pow256(k - 1)
  }

  /** The low k bytes of n, most significant first. */
  function BE(n: nat, k: nat): (s: Bytes)
    ensures |s| == k
  {
    if k == 0 then [] else BE(n / 256, k - 1) + [n % 256]
  }

  function FromBE(s: Bytes): nat {
    if s == [] then 0 else 256 * FromBE(s[..|s| - 1]) + s[|s| - 1]
  }

  lemma {:induction false} FromBEBound(s: Bytes)
    ensures FromBE(s) < Pow256(|s|)
  {
    if s != [] {
      FromBEBound(s[..|s| - 1]);
    }
  }

  lemma {:induction false} ReadWritten(n: nat, k: nat)
    requires n < Pow256(k)
    ensures FromBE(BE(n, k)) == n
  {
    if k > 0 {
      ReadWritten(n / 256, k - 1);
      assert BE(n, k)[..k - 1] == BE(n / 256, k - 1);
    }
  }

  lemma {:induction false} WrittenRead(s: Bytes)
    ensures BE(FromBE(s), |s|) == s
  {
    if s != [] {
      WrittenRead(s[..|s| - 1]);
      var n := FromBE(s);
      assert n / 256 == FromBE(s[..|s| - 1]) && n % 256 == s[|s| - 1];
    }
  }

  /** The bounds of the field widths in use. */
  lemma Powers()
    ensures Pow256(1) == 0x100 && Pow256(2) == 0x1_0000 && Pow256(4) == 0x1_0000_0000
    ensures Pow256(8) == 0x1_0000_0000_0000_0000
  {
    assert Pow256(3) == 0x100_0000;
    assert Pow256(5) == 0x100_0000_0000;
    assert Pow256(6) == 0x1_0000_0000_0000;
    assert Pow256(7) == 0x100_0000_0000_0000;
  }

  /** Byte i of k is the one worth 256^(k - 1 - i): the most significant comes first. */
  lemma {:induction false} BEAt(n: nat, k: nat, i: nat)
    requires i < k
    ensures Pow256(k - 1 - i) > 0 && BE(n, k)[i] == n / Pow256(k - 1 - i) % 256
  {
    PowPositive(k - 1 - i);
    if i < k - 1 {
      BEAt(n / 256, k - 1, i);
      PowPositive(k - 2 - i);
      DivTwice(n, Pow256(k - 2 - i));
    }
  }

  lemma {:induction false} PowPositive(k: nat)
    ensures Pow256(k) >= 1
  {
    if k > 0 {
      PowPositive(k - 1);
    }
  }

  lemma DivTwice(n: nat, p: nat)
    requires p > 0
    ensures n / 256 / p == n / (256 * p)
  {
    var q, r := n / 256 / p, n / 256 % p;
    var s := n % 256;
    assert n / 256 == q * p + r;
    assert n == 256 * (q * p + r) + s == (256 * p) * q + (256 * r + s);
    assert 256 * r + s < 256 * p;
    DivUnique(n, 256 * p, q, 256 * r + s);
  }

  lemma DivUnique(n: nat, d: nat, q: nat, r: nat)
    requires d > 0 && n == d * q + r && r < d
    ensures n / d == q
  {
    var k := n / d;
    assert d * k <= n < d * k + d;
    assert k > q ==> d * k >= d * (q + 1) == d * q + d;
    assert k < q ==> d * q >= d * (k + 1) == d * k + d;
  }

  function Pack(fields: seq<Bytes>): Bytes {
    if fields == [] then [] else fields[0] + Pack(fields[1..])
  }

  function Total(widths: seq<nat>): nat {
    if widths == [] then 0 else widths[0] + Total(widths[1..])
  }

  function Unpack(widths: seq<nat>, s: Bytes): (fields: seq<Bytes>)
    requires |s| >= Total(widths)
    ensures |fields| == |widths| && forall i :: 0 <= i < |widths| ==> |fields[i]| == widths[i]
  {
    if widths == [] then [] else [s[..widths[0]]] + Unpack(widths[1..], s[widths[0]..])
  }

  ghost predicate Fits(fields: seq<Bytes>, widths: seq<nat>) {
    |fields| == |widths| && forall i :: 0 <= i < |widths| ==> |fields[i]| == widths[i]
  }

  lemma {:induction false} PackLength(fields: seq<Bytes>, widths: seq<nat>)
    requires Fits(fields, widths)
    ensures |Pack(fields)| == Total(widths)
  {
    if fields != [] {
      PackLength(fields[1..], widths[1..]);
    }
  }

  lemma {:induction false} UnpackPack(fields: seq<Bytes>, widths: seq<nat>, rest: Bytes)
    requires Fits(fields, widths)
    ensures |Pack(fields)| == Total(widths)
    ensures Unpack(widths, Pack(fields) + rest) == fields
  {
    PackLength(fields, widths);
    if fields != [] {
      var s := Pack(fields) + rest;
      assert s[..widths[0]] == fields[0];
      assert s[widths[0]..] == Pack(fields[1..]) + rest;
      UnpackPack(fields[1..], widths[1..], rest);
    }
  }

  lemma {:induction false} PackUnpack(widths: seq<nat>, s: Bytes)
    requires |s| >= Total(widths)
    ensures Pack(Unpack(widths, s)) == s[..Total(widths)]
  {
    if widths != [] {
      PackUnpack(widths[1..], s[widths[0]..]);
      assert Unpack(widths, s)[1..] == Unpack(widths[1..], s[widths[0]..]);
      assert s[..Total(widths)] == s[..widths[0]] + s[widths[0]..][..Total(widths[1..])];
    }
  }

  /** Where field i begins. */
  function Before(widths: seq<nat>, i: nat): nat
    requires i <= |widths|
  {
    if i == 0 then 0 else Before(widths, i - 1) + widths[i - 1]
  }

  lemma {:induction false} BeforeTail(widths: seq<nat>, i: nat)
    requires 1 <= i <= |widths|
    ensures Before(widths, i) == widths[0] + Before(widths[1..], i - 1)
  {
    if i > 1 {
      BeforeTail(widths, i - 1);
    }
  }

  /** Field i of a record stands in its own place. */
  lemma {:induction false} PackAt(fields: seq<Bytes>, widths: seq<nat>, i: nat)
    requires Fits(fields, widths) && i < |fields|
    ensures var at := Before(widths, i);
            at + widths[i] <= |Pack(fields)| && Pack(fields)[at..at + widths[i]] == fields[i]
  {
    if i > 0 {
      PackAt(fields[1..], widths[1..], i - 1);
      BeforeTail(widths, i);
      var at := Before(widths, i);
      assert Pack(fields)[at..at + widths[i]] == Pack(fields[1..])[at - widths[0]..at - widths[0] + widths[i]];
    } else {
      assert Pack(fields)[..widths[0]] == fields[0];
    }
  }
}
