/** Shared vocabulary: optional values, results, JavaScript's safe integers,
    vault paths and the lexicographic order of code sequences. */
module Common {

  datatype Option<+T> = None | Some(value: T) {
    function GetOr(default: T): T {
      if Some? then value else default
    }
  }

  datatype Result<+T, +E> = Ok(value: T) | Err(error: E) {
    function ErrorOr(default: E): E {
      if Err? then error else default
    }
  }

  /** `Number.MAX_SAFE_INTEGER`. */
  const MAX_SAFE_INTEGER: nat := 0x1f_ffff_ffff_ffff

  const U32_MAX: nat := 0xffff_ffff

  function Pow2(n: nat): nat {
    if n == 0 then 1 else 2 * Pow2(n - 1)
  }

  /** `Number.isFinite` on a natural number: doubles end below this power. */
  predicate IsFinite(n: nat) {
    n < Pow2(1024)
  }

  lemma SafeIsFinite(n: nat)
    requires n <= MAX_SAFE_INTEGER
    ensures IsFinite(n)
  {
    PowerGrows(53, 1024);
    assert Pow2(53) == MAX_SAFE_INTEGER + 1 by { PowerOf53(); }
  }

  lemma {:induction false} PowerGrows(m: nat, n: nat)
    requires m <= n
    ensures Pow2(m) <= Pow2(n)
    decreases n
  {
    if m < n { PowerGrows(m, n - 1); }
  }

  lemma {:induction false} PowerSum(m: nat, n: nat)
    ensures Pow2(m + n) == Pow2(m) * Pow2(n)
  {
    if m > 0 {
      PowerSum(m - 1, n);
      Doubled(Pow2(m - 1), Pow2(n));
      assert Pow2(m) == 2 * Pow2(m - 1) && Pow2(m + n) == 2 * Pow2(m - 1 + n);
    }
  }

  lemma Doubled(a: nat, b: nat)
    ensures (2 * a) * b == 2 * (a * b)
  {}

  lemma PowerOf53()
    ensures Pow2(53) == 0x20_0000_0000_0000
  {
    assert Pow2(4) == 16 && Pow2(8) == 256 by { PowerSum(4, 4); }
    PowerSum(8, 8);
    PowerSum(16, 16);
    PowerSum(32, 16);
    PowerSum(48, 5);
    assert Pow2(5) == 32;
  }

  function Max(a: int, b: int): int {
    if a < b then b else a
  }

  function Min(a: int, b: int): int {
    if a < b then a else b
  }

  /** `toLowerCase` on the ASCII letters. */
  function LowerText(s: string): string {
    seq(|s|, i requires 0 <= i < |s| => if 'A' <= s[i] <= 'Z' then ((s[i] as int) + 32) as char else s[i])
  }

  /** Ordinary, case-sensitive segments of a path, separated by '/'. */
  function Segments(p: string): (r: seq<string>)
    ensures |r| > 0
  {
    if p == [] then [""]
    else if p[0] == '/' then [""] + Segments(p[1..])
    else
      var rest := Segments(p[1..]);
      [[p[0]] + rest[0]] + rest[1..]
  }

  predicate PrintableWithoutBackslash(p: string) {
    p == [] || (p[0] != '\\' && p[0] as int >= 0x20 && p[0] as int != 0x7f && PrintableWithoutBackslash(p[1..]))
  }

  predicate OrdinarySegments(ss: seq<string>) {
    ss == [] || (ss[0] != "" && ss[0] != "." && ss[0] != ".." && OrdinarySegments(ss[1..]))
  }

  /** `isSafeVaultPath`. */
  predicate SafePath(p: string) {
    0 < |p| <= 4096 && PrintableWithoutBackslash(p) && OrdinarySegments(Segments(p))
  }

  lemma SingleLetterPath()
    ensures SafePath("a")
  {
    assert "a"[1..] == "" && Segments("") == [""];
    assert Segments("a") == [['a'] + ""] + [""][1..];
    assert ['a'] + "" == "a" && [""][1..] == [];
    assert ["a"][1..] == [];
  }
}

/** Lexicographic order, shared by UTF-16 style string keys and byte paths. */
module Lex {

  function Codes(s: string): (r: seq<int>)
    ensures |r| == |s|
    ensures forall i | 0 <= i < |s| :: r[i] == s[i] as int
  {
    seq(|s|, i requires 0 <= i < |s| => s[i] as int)
  }

  predicate Less(a: seq<int>, b: seq<int>) {
    if b == [] then false
    else if a == [] then true
    else a[0] < b[0] || (a[0] == b[0] && Less(a[1..], b[1..]))
  }

  lemma {:induction false} Irreflexive(a: seq<int>)
    ensures !Less(a, a)
  {
    if a != [] {
      Irreflexive(a[1..]);
    }
  }

  lemma {:induction false} Transitive(a: seq<int>, b: seq<int>, c: seq<int>)
    requires Less(a, b) && Less(b, c)
    ensures Less(a, c)
  {
    if a != [] && a[0] == b[0] == c[0] {
      Transitive(a[1..], b[1..], c[1..]);
    }
  }

  lemma {:induction false} Total(a: seq<int>, b: seq<int>)
    ensures Less(a, b) || a == b || Less(b, a)
  {
    if a != [] && b != [] && a[0] == b[0] {
      Total(a[1..], b[1..]);
      assert a == [a[0]] + a[1..] && b == [b[0]] + b[1..];
    }
  }

  /** A common prefix does not influence the order. */
  lemma {:induction false} CommonPrefix(p: seq<int>, a: seq<int>, b: seq<int>)
    ensures Less(p + a, p + b) <==> Less(a, b)
  {
    if p == [] {
      assert p + a == a && p + b == b;
    } else {
      assert (p + a)[1..] == p[1..] + a && (p + b)[1..] == p[1..] + b;
      CommonPrefix(p[1..], a, b);
    }
  }

  /** Equal-width prefixes that differ decide the order alone. */
  lemma {:induction false} DecidedByPrefix(p: seq<int>, q: seq<int>, a: seq<int>, b: seq<int>)
    requires |p| == |q| && p != q
    ensures Less(p + a, q + b) <==> Less(p, q)
  {
    assert (p + a)[1..] == p[1..] + a && (q + b)[1..] == q[1..] + b;
    if p[0] == q[0] {
      assert p == [p[0]] + p[1..] && q == [q[0]] + q[1..];
      DecidedByPrefix(p[1..], q[1..], a, b);
    }
  }
}
