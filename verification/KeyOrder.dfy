/** The order in which the host enumerates the string keys of an object that was filled in
    lexicographic key order: array-index keys first and numerically, then the others
    lexicographically. `serialize` sorts the keys and fills a fresh object with them, so this
    is the order in which `JSON.stringify` prints them. */
module KeyOrder {

  /** The largest array index, 2^32 - 2, as a key. */
  const MAX_INDEX_KEY := "4294967294"

  predicate IsDigit(c: char) {
    '0' <= c <= '9'
  }

  /** The place of a character when texts are compared by UTF-16 code units: one written as a
      surrogate pair (U+D800 to U+DFFF) comes before U+E000 to U+FFFF. */
  function Rank(c: char): int {
    if 0xE000 <= c as int <= 0xFFFF then c as int + 0x110000 else c as int
  }

  /** Strict lexicographic order by UTF-16 code units, as the host compares texts. */
  predicate LexBefore(a: string, b: string)
    decreases a
  {
    b != [] && (a == [] || Rank(a[0]) < Rank(b[0]) || (a[0] == b[0] && LexBefore(a[1..], b[1..])))
  }

  /** Whether the key is the decimal text of an array index. */
  predicate IsIndexKey(k: string) {
    && k != []
    && (forall i | 0 <= i < |k| :: IsDigit(k[i]))
    && (k[0] == '0' ==> |k| == 1)
    && (|k| < |MAX_INDEX_KEY| || (|k| == |MAX_INDEX_KEY| && !LexBefore(MAX_INDEX_KEY, k)))
  }

  /** Numeric order on decimal texts without leading zeros. */
  predicate NumericBefore(a: string, b: string) {
    |a| < |b| || (|a| == |b| && LexBefore(a, b))
  }

  /** Key `a` is enumerated strictly before key `b`. */
  predicate Before(a: string, b: string) {
    if IsIndexKey(a) then !IsIndexKey(b) || NumericBefore(a, b)
    else !IsIndexKey(b) && LexBefore(a, b)
  }

  lemma {:induction false} LexTotal(a: string, b: string)
    ensures a == b || LexBefore(a, b) || LexBefore(b, a)
    ensures !(LexBefore(a, b) && LexBefore(b, a))
    ensures a == b ==> !LexBefore(a, b)
  {
    if a != [] && b != [] {
      LexTotal(a[1..], b[1..]);
      if a[0] == b[0] && a[1..] == b[1..] {
        assert a == [a[0]] + a[1..] == [b[0]] + b[1..] == b;
      }
    }
  }

  lemma {:induction false} LexTransitive(a: string, b: string, c: string)
    requires LexBefore(a, b) && LexBefore(b, c)
    ensures LexBefore(a, c)
  {
    if a != [] && a[0] == b[0] == c[0] {
      LexTransitive(a[1..], b[1..], c[1..]);
    }
  }

  /** The enumeration order is a strict total order on keys. */
  lemma BeforeTotal(a: string, b: string)
    ensures a == b || Before(a, b) || Before(b, a)
    ensures !(Before(a, b) && Before(b, a))
    ensures a == b ==> !Before(a, b)
  {
    LexTotal(a, b);
  }

  lemma BeforeTransitive(a: string, b: string, c: string)
    requires Before(a, b) && Before(b, c)
    ensures Before(a, c)
  {
    if LexBefore(a, b) && LexBefore(b, c) {
      LexTransitive(a, b, c);
    }
  }

  /** Key `a` is printed before `b` and is lexicographically greater: `a` is an array index, and
      `b` is a longer one or no array index. */
  predicate Misplaced(a: string, b: string) {
    IsIndexKey(a) && (if IsIndexKey(b) then |a| < |b| && LexBefore(b, a) else LexBefore(b, a))
  }

  /** Of two keys printed one before the other, exactly the misplaced ones are out of
      lexicographic order. */
  lemma MisplacedIff(a: string, b: string)
    ensures Misplaced(a, b) <==> Before(a, b) && LexBefore(b, a)
  {
    LexTotal(a, b);
  }

  /** The documented order is not always the printed one: "9" is printed before "10", although
      "10" is lexicographically smaller. */
  lemma IndexKeysAreNotLexicographic()
    ensures LexBefore("10", "9") && Before("9", "10") && Misplaced("9", "10")
  {
    assert IsIndexKey("9") && IsIndexKey("10");
  }

  // ---------------------------------------------------------------------------
  // UTF-16

  /** The code units of a character. */
  function CodeUnits(c: char): (units: seq<int>)
    ensures |units| == 1 || |units| == 2
  {
    var n := c as int;
    if n < 0x10000 then [n] else [0xD800 + (n - 0x10000) / 0x400, 0xDC00 + (n - 0x10000) % 0x400]
  }

  function Utf16(s: string): seq<int> {
    if s == [] then [] else CodeUnits(s[0]) + Utf16(s[1..])
  }

  /** Strict lexicographic order on code units. */
  predicate UnitsBefore(a: seq<int>, b: seq<int>)
    decreases a
  {
    b != [] && (a == [] || a[0] < b[0] || (a[0] == b[0] && UnitsBefore(a[1..], b[1..])))
  }

  lemma {:induction false} AfterPrefix(p: seq<int>, x: seq<int>, y: seq<int>)
    ensures UnitsBefore(p + x, p + y) <==> UnitsBefore(x, y)
  {
    if p == [] {
      assert p + x == x && p + y == y;
    } else {
      assert (p + x)[1..] == p[1..] + x && (p + y)[1..] == p[1..] + y;
      AfterPrefix(p[1..], x, y);
    }
  }

  lemma OtherCharacters(c: char, d: char, x: seq<int>, y: seq<int>)
    requires c != d
    ensures UnitsBefore(CodeUnits(c) + x, CodeUnits(d) + y) <==> Rank(c) < Rank(d)
  {
    var u, v := CodeUnits(c) + x, CodeUnits(d) + y;
    if |CodeUnits(c)| == 2 && |CodeUnits(d)| == 2 && u[0] == v[0] {
      assert u[1..][0] == CodeUnits(c)[1] && v[1..][0] == CodeUnits(d)[1];
    }
  }

  /** Comparing texts by the ranks of their characters is comparing them by their UTF-16 code units. */
  lemma {:induction false} LexIsUtf16(a: string, b: string)
    ensures LexBefore(a, b) <==> UnitsBefore(Utf16(a), Utf16(b))
  {
    if a == [] || b == [] {
    } else if a[0] == b[0] {
      LexIsUtf16(a[1..], b[1..]);
      AfterPrefix(CodeUnits(a[0]), Utf16(a[1..]), Utf16(b[1..]));
    } else {
      OtherCharacters(a[0], b[0], Utf16(a[1..]), Utf16(b[1..]));
    }
  }
}
