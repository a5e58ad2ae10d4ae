/**
 The bit set of linearizability/bitset.go: words of 64 bits updated in place.
 `Members` is the set a bit set stands for, and every operation is specified
 by it.
 */
module Bitset {
  import opened Words

  predicate Has(words: seq<bv64>, pos: nat)
    requires pos < 64 * |words|
  {
    Bit(words[pos / 64], pos % 64)
  }

  ghost function MembersBelow(words: seq<bv64>, n: nat): (r: set<nat>)
    requires n <= 64 * |words|
  {
    set p: nat | p < n && Has(words, p)
  }

  ghost function Members(words: seq<bv64>): set<nat> {
    MembersBelow(words, 64 * |words|)
  }

  method NewBitset(bits: nat) returns (b: array<bv64>)
    ensures fresh(b)
    ensures 64 * b.Length >= bits && 64 * b.Length < bits + 64
    ensures Members(b[..]) == {}
  {
    var extra := if bits % 64 != 0 then 1 else 0;
    b := new bv64[bits / 64 + extra](i => 0);
    forall p: nat | p < 64 * |b[..]| ensures !Has(b[..], p) {
      ZeroHasNoBit(p % 64);
    }
  }

  lemma ZeroHasNoBit(k: nat)
    requires k < 64
    ensures !Bit(0, k)
  {
    AmountSmall(k);
    ZeroAt(Amount(k));
  }

  lemma ZeroAt(k: bv7)
    requires k < 64
    ensures !BitAt(0, k)
  {
  }

  /** A copy of its own: later updates of either do not show in the other. */
  method Clone(b: array<bv64>) returns (c: array<bv64>)
    ensures fresh(c) && c[..] == b[..]
  {
    c := new bv64[b.Length](i requires 0 <= i < b.Length reads b => b[i]);
  }

  method Set(b: array<bv64>, pos: nat)
    requires pos < 64 * b.Length
    modifies b
    ensures Members(b[..]) == old(Members(b[..])) + {pos}
  {
    var major, minor := pos / 64, pos % 64;
    ghost var was := b[..];
    b[major] := WithBit(b[major], minor);
    UpdateMembers(was, b[..], pos, true);
  }

  method Clear(b: array<bv64>, pos: nat)
    requires pos < 64 * b.Length
    modifies b
    ensures Members(b[..]) == old(Members(b[..])) - {pos}
  {
    var major, minor := pos / 64, pos % 64;
    ghost var was := b[..];
    b[major] := WithoutBit(b[major], minor);
    UpdateMembers(was, b[..], pos, false);
  }

  lemma UpdateHas(was: seq<bv64>, now: seq<bv64>, pos: nat, on: bool, p: nat)
    requires pos < 64 * |was| && p < 64 * |was|
    requires var w := was[pos / 64];
             now == was[pos / 64 := if on then WithBit(w, pos % 64) else WithoutBit(w, pos % 64)]
    ensures Has(now, p) <==> if p == pos then on else Has(was, p)
  {
    hide Amount, BitAt, WithBitAt, WithoutBitAt, WithBit, WithoutBit;
    SetClearBit(was[pos / 64], pos % 64, p % 64);
  }

  lemma UpdateMembers(was: seq<bv64>, now: seq<bv64>, pos: nat, on: bool)
    requires pos < 64 * |was|
    requires var w := was[pos / 64];
             now == was[pos / 64 := if on then WithBit(w, pos % 64) else WithoutBit(w, pos % 64)]
    ensures Members(now) == if on then Members(was) + {pos} else Members(was) - {pos}
  {
    hide Has, WithBit, WithoutBit;
    forall p: nat | p < 64 * |was| ensures Has(now, p) <==> if p == pos then on else Has(was, p) {
      UpdateHas(was, now, pos, on, p);
    }
  }

  method Get(b: array<bv64>, pos: nat) returns (r: bool)
    requires pos < 64 * b.Length
    ensures r <==> pos in Members(b[..])
  {
    r := Bit(b[pos / 64], pos % 64);
  }

  method Equals(b: array<bv64>, b2: array<bv64>) returns (r: bool)
    ensures r <==> b[..] == b2[..]
  {
    if b.Length != b2.Length {
      return false;
    }
    for i := 0 to b.Length
      invariant b[..i] == b2[..i]
    {
      if b[i] != b2[i] {
        return false;
      }
    }
    return true;
  }

  /** Bit sets over as many words are equal exactly when their sets are. */
  lemma MembersInjective(a: seq<bv64>, b: seq<bv64>)
    requires |a| == |b| && Members(a) == Members(b)
    ensures a == b
  {
    hide Bit;
    forall i | 0 <= i < |a| ensures a[i] == b[i] {
      forall k: nat | k < 64 ensures Bit(a[i], k) <==> Bit(b[i], k) {
        var p := 64 * i + k;
        assert p / 64 == i && p % 64 == k;
        assert p in Members(a) <==> Has(a, p);
        assert p in Members(b) <==> Has(b, p);
      }
      WordExtensional(a[i], b[i]);
    }
  }

  // ----- counting and hashing

  lemma NextMember(words: seq<bv64>, n: nat)
    requires n < 64 * |words|
    ensures |MembersBelow(words, n + 1)| == |MembersBelow(words, n)| + if Has(words, n) then 1 else 0
  {
    hide Has;
    var a, b := MembersBelow(words, n), MembersBelow(words, n + 1);
    assert b == if Has(words, n) then a + {n} else a;
  }

  lemma {:induction false} WordMembers(words: seq<bv64>, i: nat, k: nat)
    requires i < |words| && k <= 64
    ensures |MembersBelow(words, 64 * i + k)| == |MembersBelow(words, 64 * i)| + CountBits(words[i], k)
  {
    hide Bit, MembersBelow;
    if k > 0 {
      WordMembers(words, i, k - 1);
      var p := 64 * i + k - 1;
      NextMember(words, p);
      assert p / 64 == i && p % 64 == k - 1;
    }
  }

  /** The population count is the number of positions the set holds. */
  method Popcnt(b: array<bv64>) returns (total: nat)
    ensures total == |Members(b[..])|
  {
    total := 0;
    ghost var words := b[..];
    assert MembersBelow(words, 0) == {};
    for i := 0 to b.Length
      invariant total == |MembersBelow(words, 64 * i)|
    {
      total := total + PopCount(b[i]) as nat;
      PopCountCounts(b[i]);
      WordMembers(words, i, 64);
    }
  }

  function Mix(v: bv64, w: bv64): bv64 { v ^ w }

  function XorAll(h: bv64, words: seq<bv64>): bv64
    decreases words
  {
    if words == [] then h else XorAll(Mix(h, words[0]), words[1..])
  }

  /** The hash: the number of members (as a 64-bit number) xor every word. */
  ghost function HashOf(words: seq<bv64>): bv64 {
    XorAll((|Members(words)| % 0x1_0000_0000_0000_0000) as bv64, words)
  }

  /** How many of the words have bit `k`. */
  ghost function WordsWith(words: seq<bv64>, k: nat): nat
    requires k < 64
  {
    if words == [] then 0 else WordsWith(words[1..], k) + if Bit(words[0], k) then 1 else 0
  }

  lemma MixBit(v: bv64, w: bv64, k: nat)
    requires k < 64
    ensures Bit(Mix(v, w), k) <==> Bit(v, k) != Bit(w, k)
  {
    hide BitAt, Amount;
    AmountSmall(k);
    XorAt(v, w, Amount(k));
  }

  lemma {:induction false} XorAllBit(h: bv64, words: seq<bv64>, k: nat)
    requires k < 64
    ensures Bit(XorAll(h, words), k) <==> ((if Bit(h, k) then 1 else 0) + WordsWith(words, k)) % 2 == 1
    decreases words
  {
    hide Bit, Mix;
    if words != [] {
      MixBit(h, words[0], k);
      XorAllBit(Mix(h, words[0]), words[1..], k);
    }
  }

  /** Each bit of the hash is the parity of that bit over the words and the number of
      members. */
  lemma HashBit(words: seq<bv64>, k: nat)
    requires k < 64
    ensures var count := (|Members(words)| % 0x1_0000_0000_0000_0000) as bv64;
      Bit(HashOf(words), k) <==> ((if Bit(count, k) then 1 else 0) + WordsWith(words, k)) % 2 == 1
  {
    hide Bit, Members, XorAll, WordsWith;
    XorAllBit((|Members(words)| % 0x1_0000_0000_0000_0000) as bv64, words, k);
  }

  method Hash(b: array<bv64>) returns (h: bv64)
    ensures h == HashOf(b[..])
  {
    var count := Popcnt(b);
    h := (count % 0x1_0000_0000_0000_0000) as bv64;
    ghost var words, hash := b[..], HashOf(b[..]);
    hide Members, HashOf;
    for i := 0 to b.Length
      invariant XorAll(h, words[i..]) == hash
    {
      assert words[i..][1..] == words[i + 1..];
      h := h ^ b[i];
    }
  }
}
