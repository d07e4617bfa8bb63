/** Journal rows and the text keys that order them. */
module JournalKeys {
  import opened Common
  import Lex

  datatype Action = Created | Modified | Deleted | Renamed

  /** Scan results carried as a source hint, never as publication authority. */
  datatype Metadata = Metadata(ts: nat, hash: Option<string>, mtime: Option<nat>, size: Option<nat>)

  datatype Entry = Entry(id: nat, action: Action, path: string, oldPath: Option<string>, meta: Metadata)

  predicate IsHex64(s: string) {
    |s| == 64 && forall i | 0 <= i < 64 :: '0' <= s[i] <= '9' || 'a' <= s[i] <= 'f'
  }

  predicate ValidMetadata(e: Entry) {
    || (e.meta.hash.None? && e.meta.mtime.None? && e.meta.size.None?)
    || (&& (e.action.Created? || e.action.Modified?)
        && e.meta.mtime.Some? && IsFinite(e.meta.mtime.value)
        && e.meta.size.Some? && e.meta.size.value <= MAX_SAFE_INTEGER
        && (e.meta.hash.Some? ==> IsHex64(e.meta.hash.value)))
  }

  /** The rows `validateJournalEntry` lets through. */
  predicate ValidEntry(e: Entry) {
    && 1 <= e.id < MAX_SAFE_INTEGER
    && SafePath(e.path)
    && (e.oldPath.Some? ==> SafePath(e.oldPath.value))
    && (e.action.Renamed? ==> e.oldPath.Some? && e.oldPath.value != e.path)
    && IsFinite(e.meta.ts) && ValidMetadata(e)
  }

  /** A pending row; a rename keeps one flag per endpoint. */
  datatype Record =
    | Normal(entry: Entry)
    | Rename(entry: Entry, oldPending: bool, newPending: bool)
  {
    /** The flags fit the action. */
    predicate Shaped() {
      && (Rename? <==> entry.action.Renamed?)
      && (Rename? ==> entry.oldPath.Some? && entry.oldPath.value != entry.path && (oldPending || newPending))
    }

    /** Is `p` an endpoint this row still waits for? */
    predicate Awaits(p: string)
      requires Shaped()
    {
      if Normal? then entry.path == p
      else (oldPending && entry.oldPath.value == p) || (newPending && entry.path == p)
    }
  }

  /** A row's identity: its generation, its kind and its paths. */
  datatype Key =
    | NormalKey(id: nat, path: string)
    | RenameKey(id: nat, oldPath: string, path: string)

  function KeyOf(r: Record): Key
    requires r.Shaped()
  {
    if r.Normal? then NormalKey(r.entry.id, r.entry.path)
    else RenameKey(r.entry.id, r.entry.oldPath.value, r.entry.path)
  }

  // ---------------------------------------------------------------- key text

  /** JSON string escaping. Control characters never reach a key, because no
      safe path contains one. */
  function Escape(p: string): string {
    if p == [] then []
    else EscapedChar(p[0]) + Escape(p[1..])
  }

  function EscapedChar(c: char): string {
    if c == '"' || c == '\\' then ['\\', c] else [c]
  }

  function Quote(p: string): string {
    ['"'] + Escape(p) + ['"']
  }

  /** The part of a stored key after the generation. */
  function Tie(k: Key): string {
    if k.NormalKey? then "e:" + Quote(k.path)
    else "r:[" + Quote(k.oldPath) + "," + Quote(k.path) + "]"
  }

  /** Quoted text is self-delimiting: the closing quote cannot be mistaken. */
  lemma {:induction false} EscapeDelimits(p: string, q: string, x: string, y: string)
    requires Escape(p) + ['"'] + x == Escape(q) + ['"'] + y
    ensures p == q && x == y
  {
    hide Escape;
    EscapeStep(p, x);
    EscapeStep(q, y);
    if p != [] && q != [] {
      EscapeDelimits(p[1..], q[1..], x, y);
      assert p == [p[0]] + p[1..] && q == [q[0]] + q[1..];
    }
  }

  /** The first character decides how much of the text stands for the first one. */
  lemma EscapeStep(p: string, x: string)
    ensures var s := Escape(p) + ['"'] + x;
      && (p == [] ==> s[0] == '"' && s[1..] == x)
      && (p != [] ==>
            var w := if s[0] == '\\' then 2 else 1;
            && |s| > w && s[0] != '"' && s[w - 1] == p[0] && s[w..] == Escape(p[1..]) + ['"'] + x)
  {
    hide EscapedChar;
    if p != [] {
      var rest := Escape(p[1..]) + ['"'] + x;
      Unfolded(p, x);
      FirstOf(p[0], rest);
    }
  }

  lemma Unfolded(p: string, x: string)
    requires p != []
    ensures Escape(p) + ['"'] + x == EscapedChar(p[0]) + (Escape(p[1..]) + ['"'] + x)
  {
    assert Escape(p) == EscapedChar(p[0]) + Escape(p[1..]);
  }

  lemma FirstOf(c: char, rest: string)
    requires rest != []
    ensures var s := EscapedChar(c) + rest;
      var w := if s[0] == '\\' then 2 else 1;
      |s| > w && s[0] != '"' && s[w - 1] == c && s[w..] == rest
  {}

  lemma QuoteDelimits(p: string, q: string, x: string, y: string)
    requires Quote(p) + x == Quote(q) + y
    ensures p == q && x == y
  {
    assert (Quote(p) + x)[1..] == Escape(p) + ['"'] + x;
    assert (Quote(q) + y)[1..] == Escape(q) + ['"'] + y;
    EscapeDelimits(p, q, x, y);
  }

  /** Two rows of one generation share their text only if they are the same kind
      with the same paths: punctuation inside a path cannot forge a collision. */
  lemma TieIdentifies(a: Key, b: Key)
    requires a.id == b.id && Tie(a) == Tie(b)
    ensures a == b
  {
    hide Tie, Quote, PairText;
    TieShape(a);
    TieShape(b);
    if a.NormalKey? {
      QuoteDelimits(a.path, b.path, [], []);
    } else {
      PairIdentifies(a.oldPath, a.path, b.oldPath, b.path);
    }
  }

  lemma TieShape(k: Key)
    ensures |Tie(k)| >= 3 && (Tie(k)[0] == if k.NormalKey? then 'e' else 'r')
    ensures k.NormalKey? ==> Tie(k)[2..] == Quote(k.path) + []
    ensures k.RenameKey? ==> Tie(k)[3..] == PairText(k.oldPath, k.path)
  {
    NotEmpty(k.path);
    hide Quote;
    if k.RenameKey? {
      assert Tie(k) == "r:[" + PairText(k.oldPath, k.path);
    }
  }

  lemma NotEmpty(p: string)
    ensures |Quote(p)| >= 2
  {}

  function PairText(p: string, q: string): string {
    Quote(p) + ("," + Quote(q) + "]")
  }

  lemma PairIdentifies(p: string, q: string, p': string, q': string)
    requires PairText(p, q) == PairText(p', q')
    ensures p == p' && q == q'
  {
    var x, y := "," + Quote(q) + "]", "," + Quote(q') + "]";
    QuoteDelimits(p, p', x, y);
    assert x[1..] == Quote(q) + "]" && y[1..] == Quote(q') + "]";
    QuoteDelimits(q, q', "]", "]");
  }

  /** Generation first, ties by identity text. */
  predicate KeyLess(a: Key, b: Key) {
    a.id < b.id || (a.id == b.id && Lex.Less(Lex.Codes(Tie(a)), Lex.Codes(Tie(b))))
  }

  lemma KeyLessIds()
    ensures forall a, b | KeyLess(a, b) :: a.id <= b.id
  {}

  lemma CodesIdentify(s: string, t: string)
    requires Lex.Codes(s) == Lex.Codes(t)
    ensures s == t
  {
    forall i | 0 <= i < |s| ensures s[i] == t[i] {
      assert Lex.Codes(s)[i] == Lex.Codes(t)[i];
    }
  }

  lemma KeyTotal(a: Key, b: Key)
    ensures KeyLess(a, b) || a == b || KeyLess(b, a)
    ensures !(KeyLess(a, b) && KeyLess(b, a))
    ensures !KeyLess(a, a)
  {
    var x, y := Lex.Codes(Tie(a)), Lex.Codes(Tie(b));
    Lex.Total(x, y);
    Lex.Irreflexive(x);
    if x == y && a.id == b.id {
      CodesIdentify(Tie(a), Tie(b));
      TieIdentifies(a, b);
    }
    if Lex.Less(x, y) && Lex.Less(y, x) { Lex.Transitive(x, y, x); }
  }

  lemma KeyTransitive(a: Key, b: Key, c: Key)
    requires KeyLess(a, b) && KeyLess(b, c)
    ensures KeyLess(a, c)
  {
    if a.id == b.id == c.id {
      Lex.Transitive(Lex.Codes(Tie(a)), Lex.Codes(Tie(b)), Lex.Codes(Tie(c)));
    }
  }

  // -------------------------------------------------------------- text order

  function Digit(d: nat): char
    requires d < 10
  {
    '0' + d as char
  }

  /** `Number.prototype.toString` on a natural number. */
  function Decimal(n: nat): (s: string)
    ensures s != []
  {
    if n < 10 then [Digit(n)] else Decimal(n / 10) + [Digit(n % 10)]
  }

  function PadStart(s: string, width: nat): string
    decreases width - |s|
  {
    if |s| >= width then s else PadStart(['0'] + s, width)
  }

  /** The key as stored. */
  function KeyText(k: Key): string {
    PadStart(Decimal(k.id), 16) + ":" + Tie(k)
  }

  function Pow10(w: nat): nat {
    if w == 0 then 1 else 10 * Pow10(w - 1)
  }

  function Fixed(n: nat, w: nat): (r: string)
    ensures |r| == w
  {
    if w == 0 then [] else Fixed(n / 10, w - 1) + [Digit(n % 10)]
  }

  lemma {:induction false} FixedZero(w: nat)
    ensures Fixed(0, w) == seq(w, _ => '0')
  {
    if w > 0 { FixedZero(w - 1); }
  }

  lemma {:induction false} PadStartSpec(s: string, w: nat)
    requires |s| <= w
    ensures PadStart(s, w) == seq(w - |s|, _ => '0') + s
    decreases w - |s|
  {
    if |s| < w { PadStartSpec(['0'] + s, w); }
  }

  lemma {:induction false} PaddedIsFixed(n: nat, w: nat)
    requires w > 0 && n < Pow10(w)
    ensures |Decimal(n)| <= w
    ensures seq(w - |Decimal(n)|, _ => '0') + Decimal(n) == Fixed(n, w)
  {
    if n < 10 {
      FixedZero(w - 1);
    } else {
      assert w != 1;
      PaddedIsFixed(n / 10, w - 1);
    }
  }

  lemma {:induction false} FixedOrder(m: nat, n: nat, w: nat)
    requires m < n < Pow10(w)
    ensures Lex.Less(Lex.Codes(Fixed(m, w)), Lex.Codes(Fixed(n, w)))
  {
    var p, q := Lex.Codes(Fixed(m / 10, w - 1)), Lex.Codes(Fixed(n / 10, w - 1));
    var a, b := [Digit(m % 10) as int], [Digit(n % 10) as int];
    assert Lex.Codes(Fixed(m, w)) == p + a && Lex.Codes(Fixed(n, w)) == q + b;
    if m / 10 == n / 10 {
      assert Lex.Less(a, b);
      Lex.CommonPrefix(p, a, b);
    } else {
      FixedOrder(m / 10, n / 10, w - 1);
      Lex.Irreflexive(p);
      Lex.DecidedByPrefix(p, q, a, b);
    }
  }

  /** A stored key is sixteen digits, a colon and the identity text. */
  lemma KeyTextParts(k: Key)
    requires k.id < Pow10(16)
    ensures Lex.Codes(KeyText(k)) == Lex.Codes(Fixed(k.id, 16)) + ([':' as int] + Lex.Codes(Tie(k)))
  {
    PaddedIsFixed(k.id, 16);
    PadStartSpec(Decimal(k.id), 16);
  }

  /** Stored keys sort exactly as generations do, ties by row identity. */
  lemma KeyTextOrder(a: Key, b: Key)
    requires a.id < Pow10(16) && b.id < Pow10(16)
    ensures Lex.Less(Lex.Codes(KeyText(a)), Lex.Codes(KeyText(b))) <==> KeyLess(a, b)
  {
    KeyTextParts(a);
    KeyTextParts(b);
    var p, q := Lex.Codes(Fixed(a.id, 16)), Lex.Codes(Fixed(b.id, 16));
    var x, y := Lex.Codes(Tie(a)), Lex.Codes(Tie(b));
    if a.id == b.id {
      Lex.CommonPrefix(p, [':' as int] + x, [':' as int] + y);
      Lex.CommonPrefix([':' as int], x, y);
    } else {
      FixedDistinct(a.id, b.id);
      Lex.DecidedByPrefix(p, q, [':' as int] + x, [':' as int] + y);
    }
  }

  lemma FixedDistinct(m: nat, n: nat)
    requires m < Pow10(16) && n < Pow10(16) && m != n
    ensures Lex.Codes(Fixed(m, 16)) != Lex.Codes(Fixed(n, 16))
    ensures Lex.Less(Lex.Codes(Fixed(m, 16)), Lex.Codes(Fixed(n, 16))) <==> m < n
  {
    var p, q := Lex.Codes(Fixed(m, 16)), Lex.Codes(Fixed(n, 16));
    Lex.Irreflexive(p);
    if m < n {
      FixedOrder(m, n, 16);
    } else {
      FixedOrder(n, m, 16);
      if Lex.Less(p, q) { Lex.Transitive(p, q, p); }
    }
  }

  /** No two keys are stored under one text. */
  lemma KeyTextIdentifies(a: Key, b: Key)
    requires a.id < Pow10(16) && b.id < Pow10(16)
    requires KeyText(a) == KeyText(b)
    ensures a == b
  {
    KeyTextOrder(a, b);
    KeyTextOrder(b, a);
    Lex.Irreflexive(Lex.Codes(KeyText(a)));
    KeyTotal(a, b);
  }

  /** Every generation the journal accepts fits the sixteen padded digits. */
  lemma GenerationsFit(e: Entry)
    requires ValidEntry(e)
    ensures e.id < Pow10(16)
  {
    assert Pow10(16) == 10000 * Pow10(12) by {
      assert Pow10(13) == 10 * Pow10(12);
      assert Pow10(14) == 10 * Pow10(13);
      assert Pow10(15) == 10 * Pow10(14);
    }
    assert Pow10(12) == 10000 * Pow10(8) by {
      assert Pow10(9) == 10 * Pow10(8);
      assert Pow10(10) == 10 * Pow10(9);
      assert Pow10(11) == 10 * Pow10(10);
    }
    assert Pow10(8) == 10000 * Pow10(4) by {
      assert Pow10(5) == 10 * Pow10(4);
      assert Pow10(6) == 10 * Pow10(5);
      assert Pow10(7) == 10 * Pow10(6);
    }
    assert Pow10(4) == 10000 by {
      assert Pow10(1) == 10;
      assert Pow10(2) == 100;
      assert Pow10(3) == 1000;
    }
  }
}
