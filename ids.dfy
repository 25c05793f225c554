/**
 * The hierarchical TREE_ID scheme of the audit pipeline (main.py):
 * a process is addressed by the Roman numeral of its ordinal (`get_roman`),
 * a print by `<process>.<p>` with p counted from 1, and an attachment by
 * `<print>.<letter>` where the letter comes from `index_to_char`.
 */
module TreeIds {
  import opened Strings

  // ---------------------------------------------------------------------------
  // get_roman
  // ---------------------------------------------------------------------------

  /** The greedy table of `get_roman`, largest value first. */
  function Value(i: nat): nat
    requires i < 13
  {
    [1000, 900, 500, 400, 100, 90, 50, 40, 10, 9, 5, 4, 1][i]
  }

  function Symbol(i: nat): string
    requires i < 13
  {
    ["M", "CM", "D", "CD", "C", "XC", "L", "XL", "X", "IX", "V", "IV", "I"][i]
  }

  /** Each row's value lies between its first and its last letter's value. */
  lemma TableFacts(i: nat)
    requires i < 13
    ensures 1 <= Value(i) && (i == 12 <==> Value(i) == 1)
    ensures 1 <= |Symbol(i)| <= 2
    ensures LetterValue(Symbol(i)[0]) <= Value(i) <= LetterValue(Symbol(i)[|Symbol(i)| - 1])
  {
  }

  /** The value of one numeral letter; 0 for anything else. */
  function LetterValue(c: char): nat
  {
    match c
    case 'M' => 1000
    case 'D' => 500
    case 'C' => 100
    case 'L' => 50
    case 'X' => 10
    case 'V' => 5
    case 'I' => 1
    case _ => 0
  }

  predicate IsNumeralLetter(c: char)
  {
    c in "MDCLXVI"
  }

  /**
   * The standard reading of a Roman numeral: a letter counts negatively when
   * the letter after it is worth more, positively otherwise.
   */
  function RomanValue(s: string): int
  {
    if |s| == 0 then 0
    else
      (if |s| > 1 && LetterValue(s[0]) < LetterValue(s[1]) then -(LetterValue(s[0]) as int) else LetterValue(s[0]))
      + RomanValue(s[1..])
  }

  /** The value of the first letter, 0 for the empty numeral. */
  function Lead(s: string): nat
  {
    if |s| == 0 then 0 else LetterValue(s[0])
  }

  /**
   * What the loop of `get_roman` appends from table row `i` on, starting from
   * the remaining amount `n`: `n // Value(i)` copies of `Symbol(i)`, then the
   * rest of the table on `n % Value(i)`; nothing once `n` reaches 0 (the loop
   * never gets past the last row, whose value is 1).
   */
  function RomanFrom(n: nat, i: nat): string
    requires i <= 13
    decreases 13 - i
  {
    if n == 0 || i == 13 then ""
    else Repeat(Symbol(i), Quotient(n, Value(i))) + RomanFrom(Rem(n, Value(i)), i + 1)
  }

  /** The numeral `get_roman(n)` returns: the greedy one, empty when n <= 0. */
  function Roman(n: int): string
  {
    if n <= 0 then "" else RomanFrom(n, 0)
  }

  /** What is still to be appended when `m` is left at table row `i`. */
  function Remaining(m: int, i: nat): string
    requires i <= 13
  {
    if m <= 0 then "" else RomanFrom(m, i)
  }

  /** `m // v`, counted by repeated subtraction. */
  function Quotient(m: nat, v: nat): nat
    requires v >= 1
    decreases m
  {
    if m < v then 0 else 1 + Quotient(m - v, v)
  }

  /** `m % v`, counted by repeated subtraction. */
  function Rem(m: nat, v: nat): nat
    requires v >= 1
    decreases m
  {
    if m < v then m else Rem(m - v, v)
  }

  /** `j * v`, counted the way the inner loop of `get_roman` subtracts it. */
  function Times(j: nat, v: nat): nat
  {
    if j == 0 then 0 else Times(j - 1, v) + v
  }

  lemma {:induction false} DivisionSteps(m: nat, v: nat)
    requires v >= 1
    ensures Times(Quotient(m, v), v) + Rem(m, v) == m && Rem(m, v) < v
    decreases m
  {
    if m >= v {
      DivisionSteps(m - v, v);
    }
  }

  lemma {:induction false} TimesIsProduct(j: nat, v: nat)
    ensures Times(j, v) == j * v
  {
    if j > 0 {
      TimesIsProduct(j - 1, v);
    }
  }

  /** The subtraction count agrees with Python's floor division. */
  lemma QuotientIsDiv(m: nat, v: nat)
    requires v >= 1
    ensures Quotient(m, v) == m / v
  {
    var q, r := Quotient(m, v), Rem(m, v);
    DivisionSteps(m, v);
    TimesIsProduct(q, v);
    DivUnique(m, v, q, r);
  }

  lemma DivUnique(m: nat, v: nat, q: nat, r: nat)
    requires v >= 1 && r < v && m == q * v + r
    ensures q == m / v
  {
    var d := m / v;
    assert (q - d) * v == m % v - r;
    if q > d {
      MulAtLeast(q - d, v);
    } else if q < d {
      MulAtLeast(d - q, v);
    }
  }

  lemma MulAtLeast(x: int, v: nat)
    requires x >= 1
    ensures x * v >= v
  {
  }

  lemma RepeatSnoc(s: string, k: nat)
    ensures Repeat(s, k) + s == Repeat(s, k + 1)
  {
    if k > 0 {
      RepeatSnoc(s, k - 1);
      assert Repeat(s, k) + s == s + (Repeat(s, k - 1) + s);
    }
  }

  /** `get_roman`: the greedy conversion, row by row of the table. */
  method GetRoman(n: int) returns (roman: string)
    ensures roman == Roman(n)
  {
    roman := "";
    var m := n;
    var i := 0;
    while m > 0
      invariant 0 <= i <= 13 && (i == 13 ==> m <= 0)
      invariant roman + Remaining(m, i) == Roman(n)
      decreases 13 - i
    {
      var v, sym := Value(i), Symbol(i);
      ghost var before, m0 := roman, m;
      assert v >= 1 by { TableFacts(i); }
      var k := m / v;
      QuotientIsDiv(m, v);
      roman, m := AppendCopies(roman, sym, m, v, k);
      RowStep(m0, i, k, before, m, roman);
      i := i + 1;
    }
  }

  /** The inner `for` loop of `get_roman`: append `sym` and subtract `v`, `k` times. */
  method AppendCopies(roman0: string, sym: string, m0: int, v: nat, k: nat) returns (roman: string, m: int)
    ensures roman == roman0 + Repeat(sym, k)
    ensures m == m0 - Times(k, v)
  {
    roman, m := roman0, m0;
    for j := 0 to k
      invariant m == m0 - Times(j, v)
      invariant roman == roman0 + Repeat(sym, j)
    {
      RepeatSnoc(sym, j);
      roman := roman + sym;
      m := m - v;
    }
  }

  /** One pass of the outer loop of `get_roman` consumes table row `i`. */
  lemma RowStep(m0: int, i: nat, k: nat, before: string, m: int, roman: string)
    requires 0 < m0 && i < 13 && k == Quotient(m0, Value(i))
    requires m == m0 - Times(k, Value(i))
    requires roman == before + Repeat(Symbol(i), k)
    ensures i + 1 == 13 ==> m <= 0
    ensures roman + Remaining(m, i + 1) == before + Remaining(m0, i)
  {
    DivisionSteps(m0, Value(i));
    assert m == Rem(m0, Value(i));
    RowUnfold(m0, i);
    LastRowEmpties(m0, i);
    Assoc(before, Repeat(Symbol(i), k), Remaining(m, i + 1));
  }

  lemma RowUnfold(m0: nat, i: nat)
    requires 0 < m0 && i < 13
    ensures Remaining(m0, i) == Repeat(Symbol(i), Quotient(m0, Value(i))) + Remaining(Rem(m0, Value(i)), i + 1)
  {
    TableFacts(i);
  }

  lemma LastRowEmpties(m0: nat, i: nat)
    requires 0 < m0 && i < 13
    ensures i + 1 == 13 ==> Rem(m0, Value(i)) == 0
  {
    TableFacts(i);
    DivisionSteps(m0, Value(i));
  }

  /** Appending one table row's symbol adds that row's value to the reading. */
  lemma SymbolStep(j: nat, t: string)
    requires j < 13
    requires Lead(t) <= LetterValue(Symbol(j)[|Symbol(j)| - 1])
    ensures RomanValue(Symbol(j) + t) == Value(j) + RomanValue(t)
    ensures Lead(Symbol(j) + t) == LetterValue(Symbol(j)[0])
  {
    var g := Symbol(j);
    if |g| == 1 {
      assert (g + t)[1..] == t;
    } else {
      assert |g| == 2;
      assert (g + t)[1..] == [g[1]] + t;
      assert ([g[1]] + t)[1..] == t;
      assert LetterValue(g[0]) < LetterValue(g[1]);
      assert Value(j) == LetterValue(g[1]) - LetterValue(g[0]);
    }
  }

  lemma {:induction false} RepeatStep(j: nat, k: nat, t: string)
    requires j < 13
    requires Lead(t) <= LetterValue(Symbol(j)[|Symbol(j)| - 1])
    ensures RomanValue(Repeat(Symbol(j), k) + t) == Times(k, Value(j)) + RomanValue(t)
    ensures Lead(Repeat(Symbol(j), k) + t) == if k > 0 then LetterValue(Symbol(j)[0]) else Lead(t)
  {
    if k > 0 {
      var g := Symbol(j);
      var rest := Repeat(g, k - 1) + t;
      RepeatStep(j, k - 1, t);
      assert Repeat(g, k) + t == g + rest;
      TableFacts(j);
      SymbolStep(j, rest);
    } else {
      assert Repeat(Symbol(j), k) + t == t;
    }
  }

  lemma {:induction false} RomanFromValue(n: nat, i: nat)
    requires i <= 13 && (i == 13 ==> n == 0)
    ensures RomanValue(RomanFrom(n, i)) == n
    ensures Lead(RomanFrom(n, i)) <= n
    decreases 13 - i
  {
    if n > 0 {
      var v := Value(i);
      TableFacts(i);
      DivisionSteps(n, v);
      var q, r := Quotient(n, v), Rem(n, v);
      var rest := RomanFrom(r, i + 1);
      RomanFromValue(r, i + 1);
      RepeatStep(i, q, rest);
    }
  }

  /** Reading back the numeral of any n >= 1 gives n; `get_roman(0)` is empty. */
  lemma RomanRoundTrip(n: nat)
    ensures RomanValue(Roman(n)) == n
    ensures n == 0 ==> Roman(n) == ""
  {
    if n > 0 {
      RomanFromValue(n, 0);
    }
  }

  /** Distinct process ordinals get distinct numerals. */
  lemma RomanInjective(a: nat, b: nat)
    requires Roman(a) == Roman(b)
    ensures a == b
  {
    RomanRoundTrip(a);
    RomanRoundTrip(b);
  }

  lemma {:induction false} RepeatLetters(s: string, k: nat)
    requires forall c :: c in s ==> IsNumeralLetter(c)
    ensures forall c :: c in Repeat(s, k) ==> IsNumeralLetter(c)
  {
    if k > 0 {
      RepeatLetters(s, k - 1);
    }
  }

  lemma {:induction false} RomanFromLetters(n: nat, i: nat)
    requires i <= 13
    ensures forall c :: c in RomanFrom(n, i) ==> IsNumeralLetter(c)
    decreases 13 - i
  {
    if n > 0 && i < 13 {
      TableFacts(i);
      RepeatLetters(Symbol(i), Quotient(n, Value(i)));
      RomanFromLetters(Rem(n, Value(i)), i + 1);
    }
  }

  /** A numeral is made of the letters M, D, C, L, X, V and I only. */
  lemma RomanLetters(n: int)
    ensures forall c :: c in Roman(n) ==> IsNumeralLetter(c)
  {
    if n > 0 {
      RomanFromLetters(n, 0);
    }
  }

  // ---------------------------------------------------------------------------
  // index_to_char
  // ---------------------------------------------------------------------------

  /** `index_to_char`: A..Z for 0..25, then "Z" followed by the decimal index. */
  function IndexToChar(n: nat): (r: string)
    ensures |r| >= 1 && 'A' <= r[0] <= 'Z'
    ensures |r| == 1 <==> n < 26
    ensures forall k :: 1 <= k < |r| ==> IsDigit(r[k])
  {
    if n < 26 then [(65 + n) as char] else "Z" + NatToString(n)
  }

  /** Distinct attachment ordinals get distinct letters. */
  lemma IndexToCharInjective(a: nat, b: nat)
    requires IndexToChar(a) == IndexToChar(b)
    ensures a == b
  {
    if a >= 26 && b >= 26 {
      assert NatToString(a) == IndexToChar(a)[1..] == IndexToChar(b)[1..] == NatToString(b);
      NatToStringInjective(a, b);
    } else if a < 26 && b < 26 {
      assert IndexToChar(a)[0] as int == 65 + a;
    }
  }

  // ---------------------------------------------------------------------------
  // Dotted identifiers
  // ---------------------------------------------------------------------------

  predicate DotFree(s: string)
  {
    forall k :: 0 <= k < |s| ==> s[k] != '.'
  }

  /** The TREE_ID of a node whose path of segments is `path`. */
  function TreeId(path: seq<string>): string
  {
    Join(path, ".")
  }

  /** The root segment of process number `idx`. */
  function RootId(idx: int): string
  {
    Roman(idx)
  }

  /** `f"{roman_id}.{p_i}"` */
  function PrintId(root: string, p: nat): string
  {
    root + "." + NatToString(p)
  }

  /** `f"{print_id}.{file_char}"` */
  function AttachmentId(printId: string, f: nat): string
  {
    printId + "." + IndexToChar(f)
  }

  lemma SegmentsDotFree(idx: int, p: nat, f: nat)
    ensures DotFree(Roman(idx)) && DotFree(NatToString(p)) && DotFree(IndexToChar(f))
  {
    RomanLetters(idx);
    assert forall k :: 0 <= k < |Roman(idx)| ==> Roman(idx)[k] in Roman(idx);
  }

  /** The position of the first dot, or the length when there is none. */
  function FirstDot(s: string): nat
  {
    if |s| == 0 || s[0] == '.' then 0 else 1 + FirstDot(s[1..])
  }

  lemma {:induction false} FirstDotAfter(a: string, s: string)
    requires DotFree(a)
    requires s == [] || s[0] == '.'
    ensures FirstDot(a + s) == |a|
  {
    if |a| > 0 {
      assert (a + s)[1..] == a[1..] + s;
      FirstDotAfter(a[1..], s);
    } else {
      assert a + s == s;
    }
  }

  /** A dot-free head followed by nothing or by a dotted tail splits uniquely. */
  lemma DotPrefixUnique(a: string, s: string, b: string, t: string)
    requires DotFree(a) && DotFree(b)
    requires s == [] || s[0] == '.'
    requires t == [] || t[0] == '.'
    requires a + s == b + t
    ensures a == b && s == t
  {
    FirstDotAfter(a, s);
    FirstDotAfter(b, t);
    assert a == (a + s)[..|a|] == (b + t)[..|b|] == b;
  }

  /** A TREE_ID determines its path, as long as no segment contains a dot. */
  lemma {:induction false} TreeIdInjective(a: seq<string>, b: seq<string>)
    requires |a| >= 1 && |b| >= 1
    requires forall k :: 0 <= k < |a| ==> DotFree(a[k])
    requires forall k :: 0 <= k < |b| ==> DotFree(b[k])
    requires TreeId(a) == TreeId(b)
    ensures a == b
  {
    var s := if |a| == 1 then "" else "." + Join(a[1..], ".");
    var t := if |b| == 1 then "" else "." + Join(b[1..], ".");
    assert TreeId(a) == a[0] + s;
    assert TreeId(b) == b[0] + t;
    DotPrefixUnique(a[0], s, b[0], t);
    if |a| > 1 {
      assert s[1..] == t[1..];
      TreeIdInjective(a[1..], b[1..]);
      assert a == [a[0]] + a[1..];
      assert b == [b[0]] + b[1..];
    }
  }

  lemma IdShapes(root: string, p: nat, f: nat)
    ensures PrintId(root, p) == TreeId([root, NatToString(p)])
    ensures AttachmentId(PrintId(root, p), f) == TreeId([root, NatToString(p), IndexToChar(f)])
  {
    var d, c := NatToString(p), IndexToChar(f);
    assert [root, d][1..] == [d];
    assert Join([d], ".") == d;
    assert TreeId([root, d]) == root + "." + d;
    assert [d, c][1..] == [c];
    assert [root, d, c][1..] == [d, c];
    assert Join([d, c], ".") == d + "." + c;
  }

  /** The position of a row in the tree of one process. */
  datatype Node = RootNode | PrintNode(p: nat) | AttachmentNode(p: nat, f: nat)

  /** The segments of a node's TREE_ID in process number `idx`. */
  function NodePath(idx: nat, n: Node): seq<string>
  {
    match n
    case RootNode => [RootId(idx)]
    case PrintNode(p) => [RootId(idx), NatToString(p)]
    case AttachmentNode(p, f) => [RootId(idx), NatToString(p), IndexToChar(f)]
  }

  /** The TREE_ID the worker writes for node `n` of process number `idx`. */
  function NodeId(idx: nat, n: Node): string
  {
    match n
    case RootNode => RootId(idx)
    case PrintNode(p) => PrintId(RootId(idx), p)
    case AttachmentNode(p, f) => AttachmentId(PrintId(RootId(idx), p), f)
  }

  lemma NodeIdPath(idx: nat, n: Node)
    ensures NodeId(idx, n) == TreeId(NodePath(idx, n))
  {
    IdShapes(RootId(idx), if n.RootNode? then 0 else n.p, if n.AttachmentNode? then n.f else 0);
    assert Join([RootId(idx)], ".") == RootId(idx);
  }

  /**
   * TREE_IDs are unique across the whole report: equal identifiers come from
   * the same process number and the same node.
   */
  lemma NodeIdInjective(i: nat, m: Node, j: nat, n: Node)
    requires NodeId(i, m) == NodeId(j, n)
    ensures i == j && m == n
  {
    var a, b := NodePath(i, m), NodePath(j, n);
    NodeIdPath(i, m);
    NodeIdPath(j, n);
    SegmentsDotFree(i, if m.RootNode? then 0 else m.p, if m.AttachmentNode? then m.f else 0);
    SegmentsDotFree(j, if n.RootNode? then 0 else n.p, if n.AttachmentNode? then n.f else 0);
    TreeIdInjective(a, b);
    RomanInjective(i, j);
    if |a| >= 2 {
      NatToStringInjective(m.p, n.p);
    }
    if |a| == 3 {
      IndexToCharInjective(m.f, n.f);
    }
  }
}
