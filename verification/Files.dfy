/** Files as byte sequences with positional writes. */
module Files {
  import opened Basics

  function Zeros(n: nat): (r: seq<Byte>)
    ensures |r| == n
  {
    seq(n, _ => 0)
  }

  // A positional write: extends the file when it reaches beyond its end, with zeros in any gap.
  function WriteAt(f: seq<Byte>, at: nat, bytes: seq<Byte>): (r: seq<Byte>)
    ensures |r| == if |bytes| == 0 || at + |bytes| <= |f| then |f| else at + |bytes|
  {
    if |bytes| == 0 then f
    else
      var g := if |f| < at then f + Zeros(at - |f|) else f;
      g[..at] + bytes + if at + |bytes| <= |g| then g[at + |bytes|..] else []
  }

  // The file holds `bytes` at `at`.
  ghost predicate Has(f: seq<Byte>, at: nat, bytes: seq<Byte>) {
    |bytes| > 0 ==> at + |bytes| <= |f| && f[at..at + |bytes|] == bytes
  }

  lemma WriteHas(f: seq<Byte>, at: nat, bytes: seq<Byte>)
    ensures Has(WriteAt(f, at, bytes), at, bytes)
  {
  }

  // A write leaves what lies beside it alone.
  lemma WriteApart(f: seq<Byte>, at: nat, bytes: seq<Byte>, other: nat, kept: seq<Byte>)
    requires Has(f, other, kept)
    requires other + |kept| <= at || at + |bytes| <= other
    ensures Has(WriteAt(f, at, bytes), other, kept)
  {
    var r := WriteAt(f, at, bytes);
    if |kept| > 0 && |bytes| > 0 {
      assert forall i :: other <= i < other + |kept| ==> r[i] == f[i];
      assert r[other..other + |kept|] == f[other..other + |kept|];
    }
  }

  lemma HasJoin(f: seq<Byte>, at: nat, a: seq<Byte>, b: seq<Byte>)
    requires Has(f, at, a) && Has(f, at + |a|, b)
    ensures Has(f, at, a + b)
  {
    if |a| == 0 {
      assert a + b == b;
    } else if |b| == 0 {
      assert a + b == a;
    } else {
      assert f[at..at + |a + b|] == f[at..at + |a|] + f[at + |a|..at + |a| + |b|];
    }
  }

  lemma HasSplit(f: seq<Byte>, at: nat, a: seq<Byte>, b: seq<Byte>)
    requires Has(f, at, a + b)
    ensures Has(f, at, a) && Has(f, at + |a|, b)
  {
    if |a| > 0 {
      assert f[at..at + |a|] == f[at..at + |a + b|][..|a|] == (a + b)[..|a|] == a;
    }
    if |b| > 0 {
      assert f[at + |a|..at + |a| + |b|] == f[at..at + |a + b|][|a|..] == (a + b)[|a|..] == b;
    }
  }

  // Truncated to what it holds from the start, the file is that.
  lemma HasWhole(f: seq<Byte>, bytes: seq<Byte>)
    requires Has(f, 0, bytes)
    ensures |bytes| <= |f| && f[..|bytes|] == bytes
  {
    assert |bytes| == 0 ==> f[..0] == bytes;
  }
}
