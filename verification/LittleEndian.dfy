/** Little-endian integers in byte sequences. */
module LittleEndian {
  import opened Basics

  function Pow256(n: nat): (p: nat)
    ensures p >= 1
  {
    if n == 0 then 1 else 256 * Pow256(n - 1)
  }

  // The low `n` bytes of `v`, least significant first.
  function PutLE(v: nat, n: nat): (s: seq<Byte>)
    ensures |s| == n
  {
    if n == 0 then [] else [v % 256] + PutLE(v / 256, n - 1)
  }

  function GetLE(s: seq<Byte>): nat {
    if |s| == 0 then 0 else s[0] + 256 * GetLE(s[1..])
  }

  // Reading back what was written loses only what did not fit.
  lemma {:induction false} GetPut(v: nat, n: nat)
    requires v < Pow256(n)
    ensures GetLE(PutLE(v, n)) == v
  {
    if n > 0 {
      GetPut(v / 256, n - 1);
      assert PutLE(v, n)[1..] == PutLE(v / 256, n - 1);
    }
  }

  lemma {:induction false} PutGet(s: seq<Byte>)
    ensures PutLE(GetLE(s), |s|) == s && GetLE(s) < Pow256(|s|)
  {
    if |s| > 0 {
      PutGet(s[1..]);
      assert GetLE(s) % 256 == s[0] && GetLE(s) / 256 == GetLE(s[1..]);
      assert s == [s[0]] + s[1..];
    }
  }
}
