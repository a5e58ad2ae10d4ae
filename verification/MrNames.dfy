/**
 Names of intermediate and result files (mapreduce/common.go:34-43,
 mapreduce/master_splitmerge.go:41).
 */
module MrNames {

  function Digit(d: nat): char
    requires d < 10
  {
    "0123456789"[d]
  }

  function Itoa(n: nat): string {
    if n < 10 then [Digit(n)] else Itoa(n / 10) + [Digit(n % 10)]
  }

  function ReduceName(job: string, mapTask: nat, reduceTask: nat): string {
    "mrtmp." + job + "-" + Itoa(mapTask) + "-" + Itoa(reduceTask)
  }

  function MergeName(job: string, reduceTask: nat): string {
    "mrtmp." + job + "-res-" + Itoa(reduceTask)
  }

  function OutputName(job: string): string {
    "mrtmp." + job
  }

  lemma {:induction false} ItoaDigits(n: nat)
    ensures Itoa(n) != [] && forall i :: 0 <= i < |Itoa(n)| ==> '0' <= Itoa(n)[i] <= '9'
  {
    if n >= 10 {
      ItoaDigits(n / 10);
    }
  }

  lemma DigitInjective(a: nat, b: nat)
    requires a < 10 && b < 10 && Digit(a) == Digit(b)
    ensures a == b
  {
  }

  lemma {:induction false} ItoaInjective(a: nat, b: nat)
    requires Itoa(a) == Itoa(b)
    ensures a == b
  {
    hide Digit;
    ItoaDigits(a / 10);
    ItoaDigits(b / 10);
    var s := Itoa(a);
    assert s[|s| - 1] == Digit(a % 10) == Digit(b % 10);
    DigitInjective(a % 10, b % 10);
    if a >= 10 && b >= 10 {
      assert s[..|s| - 1] == Itoa(a / 10) == Itoa(b / 10);
      ItoaInjective(a / 10, b / 10);
    }
  }

  /** What a string of decimal digits stands for. */
  function Value(s: string): int {
    if s == [] then 0 else 10 * Value(s[..|s| - 1]) + (s[|s| - 1] as int - '0' as int)
  }

  /** The digits stand for the number, and do not start with a zero that they could do
      without. */
  lemma {:induction false} ItoaValue(n: nat)
    ensures Value(Itoa(n)) == n && |Itoa(n)| > 0 && (Itoa(n)[0] == '0' ==> n == 0)
  {
    var s := Itoa(n);
    if n >= 10 {
      ItoaValue(n / 10);
      assert s[..|s| - 1] == Itoa(n / 10);
      DigitValue(n % 10);
    } else {
      assert s[..0] == [];
      DigitValue(n);
    }
  }

  lemma DigitValue(d: nat)
    requires d < 10
    ensures Digit(d) as int == '0' as int + d
  {
  }

  predicate NoDash(s: string) { forall i :: 0 <= i < |s| ==> s[i] != '-' }

  lemma SplitAtDash(a: string, b: string, c: string, d: string)
    requires NoDash(a) && NoDash(c) && a + "-" + b == c + "-" + d
    ensures a == c && b == d
  {
    var s := a + "-" + b;
    assert s[|a|] == '-' && s[|c|] == '-';
    assert a == s[..|a|] && c == s[..|c|];
    assert b == s[|a| + 1..] && d == s[|c| + 1..];
  }

  lemma SamePrefix(p: string, a: string, b: string)
    requires p + a == p + b
    ensures a == b
  {
    assert a == (p + a)[|p|..];
    assert b == (p + b)[|p|..];
  }

  /** Different tasks never share an intermediate file. */
  lemma ReduceNamesDistinct(job: string, m: nat, r: nat, m': nat, r': nat)
    ensures ReduceName(job, m, r) == ReduceName(job, m', r') <==> m == m' && r == r'
  {
    ItoaDigits(m);
    ItoaDigits(m');
    var p := "mrtmp." + job + "-";
    assert ReduceName(job, m, r) == p + (Itoa(m) + "-" + Itoa(r));
    assert ReduceName(job, m', r') == p + (Itoa(m') + "-" + Itoa(r'));
    if ReduceName(job, m, r) == ReduceName(job, m', r') {
      SamePrefix(p, Itoa(m) + "-" + Itoa(r), Itoa(m') + "-" + Itoa(r'));
      SplitAtDash(Itoa(m), Itoa(r), Itoa(m'), Itoa(r'));
      ItoaInjective(m, m');
      ItoaInjective(r, r');
    }
  }

  /** Read back, an intermediate file's name gives the job, the map task and then the
      reduce task. */
  lemma ReduceNameReads(job: string, m: nat, r: nat, a: string, b: string)
    requires NoDash(a)
    ensures ReduceName(job, m, r) == "mrtmp." + job + "-" + a + "-" + b ==> Value(a) == m && Value(b) == r
  {
    ItoaDigits(m);
    var p := "mrtmp." + job + "-";
    if ReduceName(job, m, r) == p + a + "-" + b {
      assert p + a + "-" + b == p + (a + "-" + b);
      assert ReduceName(job, m, r) == p + (Itoa(m) + "-" + Itoa(r));
      SamePrefix(p, Itoa(m) + "-" + Itoa(r), a + "-" + b);
      SplitAtDash(Itoa(m), Itoa(r), a, b);
      ItoaValue(m);
      ItoaValue(r);
    }
  }

  lemma MergeNamesDistinct(job: string, r: nat, r': nat)
    ensures MergeName(job, r) == MergeName(job, r') <==> r == r'
  {
    if MergeName(job, r) == MergeName(job, r') {
      SamePrefix("mrtmp." + job + "-res-", Itoa(r), Itoa(r'));
      ItoaInjective(r, r');
    }
  }

  /** No intermediate file is a result file, and neither is the output. */
  lemma KindsDistinct(job: string, m: nat, r: nat, r': nat)
    ensures ReduceName(job, m, r) != MergeName(job, r')
    ensures OutputName(job) != ReduceName(job, m, r) && OutputName(job) != MergeName(job, r')
  {
    ItoaDigits(m);
    var p := "mrtmp." + job + "-";
    assert ReduceName(job, m, r)[|p|] == Itoa(m)[0];
    assert MergeName(job, r')[|p|] == 'r';
  }
}
