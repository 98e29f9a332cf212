/** Numbers written in bytes, most significant byte first. */
module BigEndian {
  import opened MachineInts

  function Pow256(k: nat): (r: nat)
    ensures r > 0
  {
    if k == 0 then 1 else 256 * Pow256(k - 1)
  }

  /** The number a big-endian byte string stands for. */
  function Value(s: seq<byte>): nat {
    if s == [] then 0 else Value(s[..|s| - 1]) * 256 + s[|s| - 1] as nat
  }

  lemma {:induction false} ValueBound(s: seq<byte>)
    ensures Value(s) < Pow256(|s|)
  {
    if s != [] { ValueBound(s[..|s| - 1]); }
  }

  lemma {:induction false} ValueConcat(s: seq<byte>, t: seq<byte>)
    ensures Value(s + t) == Value(s) * Pow256(|t|) + Value(t)
  {
    if t == [] {
      assert s + t == s;
    } else {
      var u := t[..|t| - 1];
      ValueConcat(s, u);
      assert (s + t)[..|s + t| - 1] == s + u;
      calc {
        Value(s + t);
        (Value(s) * Pow256(|u|) + Value(u)) * 256 + t[|t| - 1] as nat;
        Value(s) * (Pow256(|u|) * 256) + Value(t);
      }
    }
  }

  lemma ValueCons(b: byte, t: seq<byte>)
    ensures Value([b] + t) == b as nat * Pow256(|t|) + Value(t)
  {
    ValueConcat([b], t);
    assert Value([b]) == b as nat;
  }

  lemma ValueSnoc(s: seq<byte>, b: byte)
    ensures Value(s + [b]) == Value(s) * 256 + b as nat
  {
    assert (s + [b])[..|s|] == s;
  }

  /** The k lowest bytes of n. */
  function Written(n: nat, k: nat): (s: seq<byte>)
    ensures |s| == k
  {
    if k == 0 then [] else Written(n / 256, k - 1) + [(n % 256) as byte]
  }

  lemma {:induction false} WrittenValue(n: nat, k: nat)
    requires n < Pow256(k)
    ensures Value(Written(n, k)) == n
  {
    if k > 0 {
      WrittenValue(n / 256, k - 1);
      ValueSnoc(Written(n / 256, k - 1), (n % 256) as byte);
    }
  }
}
