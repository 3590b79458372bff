/** The text `JSON.stringify` prints for a normal form, a reader for that text (the
    whitespace-free JSON grammar of RFC 8259, sections 2 to 7, with integer numbers), and
    `canonicalJson` itself (src/core/canonical_json.ts). */
module JsonText {
  import opened Wrappers
  import opened KeyOrder
  import opened Json

  // ---------------------------------------------------------------------------
  // Numbers

  function DigitChar(d: nat): char
    requires d < 10
  {
    '0' + d as char
  }

  function DigitValue(c: char): nat
    requires IsDigit(c)
  {
    (c - '0') as nat
  }

  function Digits(n: nat): string {
    if n < 10 then [DigitChar(n)] else Digits(n / 10) + [DigitChar(n % 10)]
  }

  function Decimal(n: int): string {
    if n < 0 then "-" + Digits(-n) else Digits(n)
  }

  predicate AllDigits(s: string) {
    forall i | 0 <= i < |s| :: IsDigit(s[i])
  }

  function DigitsValue(s: string): nat
    requires AllDigits(s)
  {
    if s == [] then 0 else DigitsValue(s[..|s| - 1]) * 10 + DigitValue(s[|s| - 1])
  }

  /** The length of the leading run of digits. */
  function DigitRun(s: string): (n: nat)
    ensures n <= |s| && AllDigits(s[..n])
    ensures n < |s| ==> !IsDigit(s[n])
  {
    if s == [] || !IsDigit(s[0]) then 0 else 1 + DigitRun(s[1..])
  }

  /** Digits print and read back. */
  lemma {:induction false} DigitsReadBack(n: nat)
    ensures AllDigits(Digits(n)) && Digits(n) != []
    ensures DigitsValue(Digits(n)) == n
    ensures Digits(n)[0] == '0' ==> n == 0 && |Digits(n)| == 1
  {
    if n >= 10 {
      DigitsReadBack(n / 10);
      var s := Digits(n);
      assert s[..|s| - 1] == Digits(n / 10);
    }
  }

  lemma {:induction false} DigitRunOf(s: string, rest: string)
    requires AllDigits(s)
    requires rest == [] || !IsDigit(rest[0])
    ensures DigitRun(s + rest) == |s|
  {
    if s == [] {
      assert s + rest == rest;
    } else {
      assert (s + rest)[1..] == s[1..] + rest;
      DigitRunOf(s[1..], rest);
    }
  }

  // ---------------------------------------------------------------------------
  // Array indices

  lemma {:induction false} LexAppend(x: string, y: string, c: char, d: char)
    requires |x| == |y| && IsDigit(c) && IsDigit(d)
    ensures LexBefore(x + [c], y + [d]) <==> LexBefore(x, y) || (x == y && c < d)
  {
    if x == [] {
      assert x + [c] == [c] && y + [d] == [d];
    } else {
      assert (x + [c])[1..] == x[1..] + [c] && (y + [d])[1..] == y[1..] + [d];
      LexAppend(x[1..], y[1..], c, d);
      assert x == [x[0]] + x[1..] && y == [y[0]] + y[1..];
    }
  }

  lemma DigitsDiffer(a: nat, b: nat)
    ensures Digits(a) == Digits(b) <==> a == b
  {
    DigitsReadBack(a);
    DigitsReadBack(b);
  }

  /** The order of array-index keys is that of the numbers. */
  lemma {:induction false} DigitsOrder(a: nat, b: nat)
    ensures NumericBefore(Digits(a), Digits(b)) <==> a < b
  {
    DigitsReadBack(a / 10);
    DigitsReadBack(b / 10);
    if a >= 10 && b >= 10 {
      DigitsOrder(a / 10, b / 10);
      DigitsDiffer(a / 10, b / 10);
      if |Digits(a / 10)| == |Digits(b / 10)| {
        LexAppend(Digits(a / 10), Digits(b / 10), DigitChar(a % 10), DigitChar(b % 10));
      }
    } else if a < 10 && b < 10 {
      LexAppend([], [], DigitChar(a), DigitChar(b));
      assert [] + [DigitChar(a)] == Digits(a) && [] + [DigitChar(b)] == Digits(b);
    }
  }

  lemma {:induction false} PositiveValue(s: string)
    requires AllDigits(s) && s != [] && s[0] != '0'
    ensures DigitsValue(s) > 0
  {
    if |s| == 1 {
    } else {
      PositiveValue(s[..|s| - 1]);
    }
  }

  /** A decimal text without leading zeros is the text of its value. */
  lemma {:induction false} DigitsOfValue(s: string)
    requires AllDigits(s) && s != [] && (s[0] == '0' ==> |s| == 1)
    ensures Digits(DigitsValue(s)) == s
  {
    if |s| == 1 {
      assert s[..0] == [];
    } else {
      var init, last := s[..|s| - 1], s[|s| - 1];
      DigitsOfValue(init);
      PositiveValue(init);
      var v, d := DigitsValue(init), DigitValue(last);
      assert (v * 10 + d) / 10 == v && (v * 10 + d) % 10 == d;
      assert s == init + [last];
    }
  }

  lemma OneDigitMore(s: string, c: char)
    requires AllDigits(s) && IsDigit(c)
    ensures AllDigits(s + [c]) && DigitsValue(s + [c]) == DigitsValue(s) * 10 + DigitValue(c)
  {
    assert (s + [c])[..|s|] == s;
  }

  lemma {:induction false} MaxIndexStart()
    ensures AllDigits("42949") && DigitsValue("42949") == 42949
  {
    OneDigitMore("", '4');
    OneDigitMore("4", '2');
    OneDigitMore("42", '9');
    OneDigitMore("429", '4');
    OneDigitMore("4294", '9');
    assert "" + ['4'] == "4" && "4" + ['2'] == "42" && "42" + ['9'] == "429" && "429" + ['4'] == "4294" && "4294" + ['9'] == "42949";
  }

  lemma {:induction false} MaxIndexMiddle()
    ensures AllDigits("42949672") && DigitsValue("42949672") == 42949672
  {
    MaxIndexStart();
    OneDigitMore("42949", '6');
    OneDigitMore("429496", '7');
    OneDigitMore("4294967", '2');
    assert "42949" + ['6'] == "429496" && "429496" + ['7'] == "4294967" && "4294967" + ['2'] == "42949672";
  }

  lemma {:induction false} MaxIndexValue()
    ensures AllDigits(MAX_INDEX_KEY) && DigitsValue(MAX_INDEX_KEY) == 4294967294
  {
    MaxIndexMiddle();
    OneDigitMore("42949672", '9');
    OneDigitMore("429496729", '4');
    assert "42949672" + ['9'] == "429496729" && "429496729" + ['4'] == MAX_INDEX_KEY;
  }

  /** A key is an array index if and only if it is the decimal text of a number up to 2^32 - 2. */
  lemma {:induction false} IndexKeyIff(k: string)
    ensures IsIndexKey(k) <==> exists n: nat | n <= 4294967294 :: k == Digits(n)
  {
    MaxIndexValue();
    DigitsOfValue(MAX_INDEX_KEY);
    if IsIndexKey(k) {
      DigitsOfValue(k);
      DigitsOrder(4294967294, DigitsValue(k));
    }
    if n: nat :| n <= 4294967294 && k == Digits(n) {
      DigitsReadBack(n);
      DigitsOrder(4294967294, n);
    }
  }

  // ---------------------------------------------------------------------------
  // Strings

  function HexDigit(d: nat): char
    requires d < 16
  {
    if d < 10 then '0' + d as char else 'a' + (d - 10) as char
  }

  function HexValue(c: char): Option<nat> {
    if '0' <= c <= '9' then Some((c - '0') as nat)
    else if 'a' <= c <= 'f' then Some((c - 'a') as nat + 10)
    else if 'A' <= c <= 'F' then Some((c - 'A') as nat + 10)
    else None
  }

  /** How one character is printed inside a string. */
  function EscapeChar(c: char): string {
    if c == '"' then "\\\""
    else if c == '\\' then "\\\\"
    else if c == 8 as char then "\\b"
    else if c == 9 as char then "\\t"
    else if c == 10 as char then "\\n"
    else if c == 12 as char then "\\f"
    else if c == 13 as char then "\\r"
    else if c as int < 0x20 then "\\u00" + [HexDigit(c as nat / 16), HexDigit(c as nat % 16)]
    else [c]
  }

  function EscapeAll(s: string): string {
    if s == [] then [] else EscapeChar(s[0]) + EscapeAll(s[1..])
  }

  function Quote(s: string): string {
    "\"" + EscapeAll(s) + "\""
  }

  /** Reads a four-digit escape. Surrogates are not characters here. */
  function ReadHexEscape(t: string): (r: Option<(char, string)>)
    requires |t| >= 6
    ensures r.Some? ==> r.value.1 == t[6..]
  {
    match (HexValue(t[2]), HexValue(t[3]), HexValue(t[4]), HexValue(t[5]))
    case (Some(a), Some(b), Some(c), Some(d)) =>
      var code := ((a * 16 + b) * 16 + c) * 16 + d;
      if code < 0xD800 then Some((code as char, t[6..])) else None
    case _ => None
  }

  /** Reads one possibly escaped character of a string. */
  function ReadChar(t: string): (r: Option<(char, string)>)
    ensures r.Some? ==> |r.value.1| < |t|
  {
    if t == [] || t[0] as int < 0x20 || t[0] == '"' then None
    else if t[0] != '\\' then Some((t[0], t[1..]))
    else if |t| < 2 then None
    else match t[1]
      case '"' => Some(('"', t[2..]))
      case '\\' => Some(('\\', t[2..]))
      case '/' => Some(('/', t[2..]))
      case 'b' => Some((8 as char, t[2..]))
      case 't' => Some((9 as char, t[2..]))
      case 'n' => Some((10 as char, t[2..]))
      case 'f' => Some((12 as char, t[2..]))
      case 'r' => Some((13 as char, t[2..]))
      case 'u' =>
        if |t| < 6 then None else ReadHexEscape(t)
      case _ => None
  }

  /** Reads the rest of a string after its opening quote. */
  function ReadChars(t: string): (r: Option<(string, string)>)
    ensures r.Some? ==> |r.value.1| < |t|
    decreases |t|
  {
    if t == [] then None
    else if t[0] == '"' then Some(([], t[1..]))
    else match ReadChar(t)
      case None => None
      case Some(first) =>
        match ReadChars(first.1)
        case None => None
        case Some(more) => Some(([first.0] + more.0, more.1))
  }

  lemma HexEscapeReadsBack(c: char, rest: string)
    requires c as int < 0x20
    ensures ReadHexEscape("\\u00" + [HexDigit(c as nat / 16), HexDigit(c as nat % 16)] + rest) == Some((c, rest))
  {
    var hi, lo := HexDigit(c as nat / 16), HexDigit(c as nat % 16);
    var t := "\\u00" + [hi, lo] + rest;
    assert t[2] == '0' && t[3] == '0' && t[4] == hi && t[5] == lo && t[6..] == rest;
    assert HexValue(hi) == Some(c as nat / 16) && HexValue(lo) == Some(c as nat % 16);
  }

  lemma TwoCharEscape(k: char, rest: string)
    ensures |"\\" + [k] + rest| >= 2
    ensures ("\\" + [k] + rest)[0] == '\\' && ("\\" + [k] + rest)[1] == k && ("\\" + [k] + rest)[2..] == rest
  {
  }

  lemma EscapeReadsBack(c: char, rest: string)
    ensures ReadChar(EscapeChar(c) + rest) == Some((c, rest))
    ensures EscapeChar(c) != [] && EscapeChar(c)[0] != '"'
  {
    var e := EscapeChar(c);
    if |e| == 1 {
      assert (e + rest)[1..] == rest;
    } else if |e| == 2 {
      assert e == "\\" + [e[1]];
      TwoCharEscape(e[1], rest);
    } else {
      HexEscapeReadsBack(c, rest);
      assert (e + rest)[0] == '\\' && (e + rest)[1] == 'u';
    }
  }

  /** A quoted string reads back, and the rest is left unread. */
  lemma {:induction false} CharsReadBack(s: string, rest: string)
    ensures ReadChars(EscapeAll(s) + "\"" + rest) == Some((s, rest))
  {
    if s == [] {
      assert EscapeAll(s) + "\"" + rest == "\"" + rest;
    } else {
      var first, more := EscapeChar(s[0]), EscapeAll(s[1..]);
      var tail := more + "\"" + rest;
      assert EscapeAll(s) + "\"" + rest == first + tail;
      EscapeReadsBack(s[0], tail);
      CharsReadBack(s[1..], rest);
      OneMoreChar(first + tail, s[0], tail);
      assert s == [s[0]] + s[1..];
    }
  }

  lemma OneMoreChar(t: string, c: char, tail: string)
    requires t != [] && t[0] != '"' && ReadChar(t) == Some((c, tail))
    ensures ReadChars(t) ==
            match ReadChars(tail)
            case None => None
            case Some(more) => Some(([c] + more.0, more.1))
  {
  }

  // ---------------------------------------------------------------------------
  // Values

  /** A normal form: nothing that `serialize` rejects or drops. */
  predicate Printable(v: Json) {
    match v
    case Undefined => false
    case Foreign => false
    case Instance(_) => false
    case Arr(items) => forall i | 0 <= i < |items| :: Printable(items[i])
    case Obj(ms) => forall i | 0 <= i < |ms| :: Printable(ms[i].value)
    case _ => true
  }

  /** The text of a normal form; what `serialize` never returns prints as nothing. */
  function Stringify(v: Json): string {
    match v
    case Null => "null"
    case Bool(b) => if b then "true" else "false"
    case Num(n) => Decimal(n)
    case Str(s) => Quote(s)
    case Arr(items) => "[" + (if items == [] then "]" else Stringify(items[0]) + MoreItems(items[1..]))
    case Obj(ms) => "{" + (if ms == [] then "}" else PrintMember(ms[0]) + MoreMembers(ms[1..]))
    case _ => ""
  }

  function MoreItems(items: seq<Json>): string {
    if items == [] then "]" else "," + (Stringify(items[0]) + MoreItems(items[1..]))
  }

  function PrintMember(m: Member): string {
    Quote(m.key) + (":" + Stringify(m.value))
  }

  function MoreMembers(ms: seq<Member>): string {
    if ms == [] then "}" else "," + (PrintMember(ms[0]) + MoreMembers(ms[1..]))
  }

  /** Reads a fixed word that stands for `v`. */
  function ReadWord(t: string, word: string, v: Json): (r: Option<(Json, string)>)
    requires word != []
    ensures r.Some? ==> |r.value.1| < |t|
  {
    if word <= t then Some((v, t[|word|..])) else None
  }

  function ReadNumber(t: string): (r: Option<(Json, string)>)
    ensures r.Some? ==> |r.value.1| < |t|
  {
    var negative := t != [] && t[0] == '-';
    var body := if negative then t[1..] else t;
    var n := DigitRun(body);
    if n == 0 || (n > 1 && body[0] == '0') then None
    else
      var value: int := DigitsValue(body[..n]);
      Some((Num(if negative then -value else value), body[n..]))
  }

  /** Reads one value and returns it with the unread rest. */
  function ReadValue(t: string): (r: Option<(Json, string)>)
    ensures r.Some? ==> |r.value.1| < |t|
    decreases |t|, 1
  {
    if t == [] then None
    else match t[0]
      case 'n' => ReadWord(t, "null", Null)
      case 't' => ReadWord(t, "true", Bool(true))
      case 'f' => ReadWord(t, "false", Bool(false))
      case '"' =>
        (match ReadChars(t[1..])
         case None => None
         case Some(p) => Some((Str(p.0), p.1)))
      case '[' => ReadArray(t[1..])
      case '{' => ReadObject(t[1..])
      case _ => ReadNumber(t)
  }

  /** Reads an array after its opening bracket. */
  function ReadArray(t: string): (r: Option<(Json, string)>)
    ensures r.Some? ==> |r.value.1| < |t|
    decreases |t|, 2
  {
    if t == [] then None
    else if t[0] == ']' then Some((Arr([]), t[1..]))
    else
      match ReadValue(t)
      case None => None
      case Some(p) =>
        match ReadItems(p.1)
        case None => None
        case Some(q) => Some((Arr([p.0] + q.0), q.1))
  }

  /** Reads an object after its opening brace. */
  function ReadObject(t: string): (r: Option<(Json, string)>)
    ensures r.Some? ==> |r.value.1| < |t|
    decreases |t|, 3
  {
    if t == [] then None
    else if t[0] == '}' then Some((Obj([]), t[1..]))
    else
      match ReadMember(t)
      case None => None
      case Some(p) =>
        match ReadMembers(p.1)
        case None => None
        case Some(q) => Some((Obj([p.0] + q.0), q.1))
  }

  /** Reads the items after the first one, up to the closing bracket. */
  function ReadItems(t: string): (r: Option<(seq<Json>, string)>)
    ensures r.Some? ==> |r.value.1| < |t|
    decreases |t|, 0
  {
    if t == [] then None
    else if t[0] == ']' then Some(([], t[1..]))
    else if t[0] != ',' then None
    else
      match ReadValue(t[1..])
      case None => None
      case Some(p) =>
        match ReadItems(p.1)
        case None => None
        case Some(q) => Some(([p.0] + q.0, q.1))
  }

  function ReadMember(t: string): (r: Option<(Member, string)>)
    ensures r.Some? ==> |r.value.1| < |t|
    decreases |t|, 2
  {
    if t == [] || t[0] != '"' then None
    else
      match ReadChars(t[1..])
      case None => None
      case Some(k) =>
        if k.1 == [] || k.1[0] != ':' then None
        else
          match ReadValue(k.1[1..])
          case None => None
          case Some(p) => Some((Member(k.0, p.0), p.1))
  }

  /** Reads the members after the first one, up to the closing brace. */
  function ReadMembers(t: string): (r: Option<(seq<Member>, string)>)
    ensures r.Some? ==> |r.value.1| < |t|
    decreases |t|, 3
  {
    if t == [] then None
    else if t[0] == '}' then Some(([], t[1..]))
    else if t[0] != ',' then None
    else
      match ReadMember(t[1..])
      case None => None
      case Some(p) =>
        match ReadMembers(p.1)
        case None => None
        case Some(q) => Some(([p.0] + q.0, q.1))
  }

  /** No digit follows, so a number that ends here is complete. */
  predicate EndsNumber(rest: string) {
    rest == [] || !IsDigit(rest[0])
  }

  lemma Associate(a: string, b: string, c: string)
    ensures (a + b) + c == a + (b + c)
  {
  }

  /** An unsigned number is read whole. */
  lemma DigitsRead(m: nat, rest: string)
    requires EndsNumber(rest)
    ensures ReadNumber(Digits(m) + rest) == Some((Num(m), rest))
    ensures ReadNumber("-" + (Digits(m) + rest)) == Some((Num(-(m as int)), rest))
  {
    var d := Digits(m);
    DigitsReadBack(m);
    DigitRunOf(d, rest);
    var body := d + rest;
    assert body[..|d|] == d && body[|d|..] == rest && body[0] == d[0];
    assert IsDigit(d[0]);
    var t := "-" + body;
    assert t[0] == '-' && t[1..] == body;
  }

  /** How the reader chooses by the first character. */
  lemma DispatchArray(u: string)
    ensures ReadValue("[" + u) == ReadArray(u)
  {
    assert ("[" + u)[1..] == u;
  }

  lemma DispatchObject(u: string)
    ensures ReadValue("{" + u) == ReadObject(u)
  {
    assert ("{" + u)[1..] == u;
  }

  lemma {:induction false} DispatchNumber(t: string)
    requires t != [] && (t[0] == '-' || IsDigit(t[0]))
    ensures ReadValue(t) == ReadNumber(t)
  {
  }

  lemma NumberReadsBack(n: int, rest: string)
    requires EndsNumber(rest)
    ensures ReadValue(Decimal(n) + rest) == Some((Num(n), rest))
  {
    var m: nat := if n < 0 then -n else n;
    var d := Digits(m);
    DigitsRead(m, rest);
    DigitsReadBack(m);
    Associate("-", d, rest);
    DispatchNumber(Decimal(n) + rest);
  }

  /** Every normal form reads back from its text, whatever follows. */
  lemma {:induction false} ReadBack(v: Json, rest: string)
    requires Printable(v)
    requires v.Num? ==> EndsNumber(rest)
    ensures ReadValue(Stringify(v) + rest) == Some((v, rest))
    decreases v, 1
  {
    match v
    case Null => WordsReadBack(rest);
    case Bool(b) => WordsReadBack(rest);
    case Num(n) => NumberReadsBack(n, rest);
    case Str(s) => StringReadsBack(s, rest);
    case Arr(items) => ArrReadsBack(items, rest);
    case Obj(ms) => ObjReadsBack(ms, rest);
  }

  lemma WordsReadBack(rest: string)
    ensures ReadValue("null" + rest) == Some((Null, rest))
    ensures ReadValue("true" + rest) == Some((Bool(true), rest))
    ensures ReadValue("false" + rest) == Some((Bool(false), rest))
  {
    assert ("null" + rest)[4..] == rest && ("true" + rest)[4..] == rest && ("false" + rest)[5..] == rest;
  }

  lemma StringReadsBack(s: string, rest: string)
    ensures ReadValue(Quote(s) + rest) == Some((Str(s), rest))
  {
    var t := Quote(s) + rest;
    assert t[0] == '"' && t[1..] == EscapeAll(s) + "\"" + rest;
    CharsReadBack(s, rest);
  }

  lemma {:induction false} ArrReadsBack(items: seq<Json>, rest: string)
    requires Printable(Arr(items))
    ensures ReadValue(Stringify(Arr(items)) + rest) == Some((Arr(items), rest))
    decreases items, 0
  {
    var inner := if items == [] then "]" else Stringify(items[0]) + MoreItems(items[1..]);
    Associate("[", inner, rest);
    DispatchArray(inner + rest);
    if items == [] {
    } else {
      var first, more := Stringify(items[0]), MoreItems(items[1..]);
      Associate(first, more, rest);
      FirstIsNotClosing(items[0]);
      assert (first + (more + rest))[0] == first[0];
      ItemsReadBack(items[1..], rest);
      ReadBack(items[0], more + rest);
      assert items == [items[0]] + items[1..];
    }
  }

  lemma {:induction false} ObjReadsBack(ms: seq<Member>, rest: string)
    requires Printable(Obj(ms))
    ensures ReadValue(Stringify(Obj(ms)) + rest) == Some((Obj(ms), rest))
    decreases ms, 0
  {
    var inner := if ms == [] then "}" else PrintMember(ms[0]) + MoreMembers(ms[1..]);
    Associate("{", inner, rest);
    DispatchObject(inner + rest);
    if ms == [] {
    } else {
      var first, more := PrintMember(ms[0]), MoreMembers(ms[1..]);
      Associate(first, more, rest);
      assert (first + (more + rest))[0] == first[0] == '"';
      MembersReadBack(ms[1..], rest);
      MemberReadsBack(ms[0], more + rest);
      assert ms == [ms[0]] + ms[1..];
    }
  }

  lemma FirstIsNotClosing(v: Json)
    requires Printable(v)
    ensures Stringify(v) != [] && Stringify(v)[0] != ']'
  {
    if v.Num? {
      DigitsReadBack(if v.n < 0 then -v.n else v.n);
    }
  }

  lemma {:induction false} ItemsReadBack(items: seq<Json>, rest: string)
    requires forall i | 0 <= i < |items| :: Printable(items[i])
    ensures ReadItems(MoreItems(items) + rest) == Some((items, rest))
    ensures EndsNumber(MoreItems(items) + rest)
    decreases items
  {
    var t := MoreItems(items) + rest;
    if items == [] {
      assert t[1..] == rest;
    } else {
      var first, more := Stringify(items[0]), MoreItems(items[1..]);
      Associate(",", first + more, rest);
      Associate(first, more, rest);
      assert t[0] == ',' && t[1..] == first + (more + rest);
      ItemsReadBack(items[1..], rest);
      ReadBack(items[0], more + rest);
      assert items == [items[0]] + items[1..];
    }
  }

  /** What the reader does with a quoted key, a colon and a text. */
  lemma ReadsMember(key: string, body: string)
    ensures ReadMember(Quote(key) + (":" + body)) ==
            match ReadValue(body)
            case None => None
            case Some(p) => Some((Member(key, p.0), p.1))
  {
    var after := ":" + body;
    var t := Quote(key) + after;
    assert t[0] == '"';
    assert t[1..] == EscapeAll(key) + "\"" + after;
    CharsReadBack(key, after);
    assert after[1..] == body;
  }

  lemma {:induction false} MemberReadsBack(m: Member, rest: string)
    requires Printable(m.value)
    requires EndsNumber(rest)
    ensures ReadMember(PrintMember(m) + rest) == Some((m, rest))
    decreases m
  {
    var value := Stringify(m.value);
    Associate(Quote(m.key), ":" + value, rest);
    Associate(":", value, rest);
    ReadsMember(m.key, value + rest);
    ReadBack(m.value, rest);
  }

  lemma {:induction false} MembersReadBack(ms: seq<Member>, rest: string)
    requires forall i | 0 <= i < |ms| :: Printable(ms[i].value)
    ensures ReadMembers(MoreMembers(ms) + rest) == Some((ms, rest))
    ensures EndsNumber(MoreMembers(ms) + rest)
    decreases ms
  {
    var t := MoreMembers(ms) + rest;
    if ms == [] {
      assert t[1..] == rest;
    } else {
      var first, more := PrintMember(ms[0]), MoreMembers(ms[1..]);
      Associate(",", first + more, rest);
      Associate(first, more, rest);
      assert t[0] == ',' && t[1..] == first + (more + rest);
      MembersReadBack(ms[1..], rest);
      MemberReadsBack(ms[0], more + rest);
      assert ms == [ms[0]] + ms[1..];
    }
  }

  /** Distinct normal forms have distinct texts. */
  lemma StringifyInjective(a: Json, b: Json)
    requires Printable(a) && Printable(b)
    ensures Stringify(a) == Stringify(b) <==> a == b
  {
    ReadBack(a, []);
    ReadBack(b, []);
    assert Stringify(a) + [] == Stringify(a) && Stringify(b) + [] == Stringify(b);
  }

  // ---------------------------------------------------------------------------
  // canonicalJson

  function CanonicalJson(v: Json): Result<string, CanonicalError> {
    var normal :- Serialize(v);
    Success(Stringify(normal))
  }

  /** What `serialize` returns can be printed. */
  lemma {:induction false} SerializePrintable(v: Json)
    requires Serialize(v).Success?
    ensures Printable(Serialize(v).value)
  {
    match v
    case Arr(items) =>
      SerializeItemsAt(items);
      forall i | 0 <= i < |items| ensures Printable(Serialize(items[i]).value) {
        SerializePrintable(items[i]);
      }
    case Obj(ms) =>
      SerializeMembersAre(ms);
      var out := SerializeMembers(ms).value;
      PermutedMembership(out);
      forall j | 0 <= j < |SortMembers(out)| ensures Printable(SortMembers(out)[j].value) {
        var m := SortMembers(out)[j];
        assert m in SortMembers(out) && FromMember(ms, m);
        var i :| 0 <= i < |ms| && ms[i].key == m.key && !ms[i].value.Undefined? && Serialize(ms[i].value) == Success(m.value);
        SerializePrintable(ms[i].value);
      }
    case _ =>
  }

  /** `canonicalJson` throws exactly on the values that are not representable. */
  lemma CanonicalDefined(v: Json)
    ensures CanonicalJson(v).Success? <==> Representable(v)
  {
    SerializeSucceeds(v);
  }

  /** Canonical printing is injective and order-blind: two values print the same exactly when
      they are equal up to undefined object members and the order of members. */
  lemma CanonicalInjective(a: Json, b: Json)
    requires WellFormed(a) && WellFormed(b)
    requires Representable(a) && Representable(b)
    ensures CanonicalJson(a) == CanonicalJson(b) <==> Same(a, b)
  {
    SerializeSucceeds(a);
    SerializeSucceeds(b);
    SerializePrintable(a);
    SerializePrintable(b);
    StringifyInjective(Serialize(a).value, Serialize(b).value);
    SameNormalForm(a, b);
  }

  /** The printed text is JSON for the normal form, so it parses to it with nothing left over. */
  lemma CanonicalParses(v: Json)
    requires Representable(v)
    ensures CanonicalJson(v).Success? && ReadValue(CanonicalJson(v).value) == Some((Serialize(v).value, []))
  {
    SerializeSucceeds(v);
    SerializePrintable(v);
    ReadBack(Serialize(v).value, []);
    assert Stringify(Serialize(v).value) + [] == Stringify(Serialize(v).value);
  }

  // ---------------------------------------------------------------------------
  // One text

  lemma {:induction false} QuotedText()
    ensures Quote("x\"\n") == "\"x\\\"\\n\""
  {
    var s := "x\"\n";
    assert s[1..] == "\"\n" && "\"\n"[1..] == "\n" && "\n"[1..] == [];
    assert EscapeAll("\n") == "\\n";
    assert EscapeAll("\"\n") == "\\\"\\n";
  }

  lemma {:induction false} DecimalText()
    ensures Decimal(-10) == "-10" && Decimal(3) == "3"
  {
    assert Digits(1) == "1" && Digits(10) == "10";
  }

  lemma {:induction false} ItemsText()
    ensures Stringify(Arr([Num(-10), Bool(true), Null])) == "[-10,true,null]"
  {
    var items := [Num(-10), Bool(true), Null];
    DecimalText();
    assert items[1..] == [Bool(true), Null] && [Bool(true), Null][1..] == [Null] && [Null][1..] == [];
    assert MoreItems([Null]) == ",null]";
    assert MoreItems([Bool(true), Null]) == ",true,null]";
  }

  lemma {:induction false} MembersText()
    ensures Stringify(Obj([Member("a", Num(3)), Member("c", Num(-10))])) == "{\"a\":3,\"c\":-10}"
  {
    var a, c := Member("a", Num(3)), Member("c", Num(-10));
    DecimalText();
    assert "a"[1..] == [] && "c"[1..] == [];
    assert Quote("a") == "\"a\"" && Quote("c") == "\"c\"";
    assert [a, c][1..] == [c] && [c][1..] == [];
    assert PrintMember(c) == "\"c\":-10";
    assert MoreMembers([c]) == ",\"c\":-10}";
  }

  lemma {:induction false} MembersNormal()
    ensures Serialize(Obj([Member("c", Num(-10)), Member("b", Undefined), Member("a", Num(3))])) ==
            Success(Obj([Member("a", Num(3)), Member("c", Num(-10))]))
  {
    var a, b, c := Member("a", Num(3)), Member("b", Undefined), Member("c", Num(-10));
    assert [c, b, a][1..] == [b, a] && [b, a][1..] == [a] && [a][1..] == [];
    assert [a] + [] == [a] && [c] + [a] == [c, a];
    assert SerializeMembers([]) == Success([]);
    assert SerializeMembers([a]) == Success([a]);
    assert SerializeMembers([b, a]) == Success([a]);
    assert SerializeMembers([c, b, a]) == Success([c, a]);
    SortsTwo(c, a);
  }

  lemma {:induction false} SortsTwo(c: Member, a: Member)
    requires c.key == "c" && a.key == "a"
    ensures SortMembers([c, a]) == [a, c]
  {
    assert [c, a][1..] == [a] && [a][1..] == [];
    assert LexBefore("a", "c") && !IsIndexKey("a") && !IsIndexKey("c");
    BeforeTotal("a", "c");
    assert Insert(a, []) == [a] && SortMembers([]) == [];
    assert SortMembers([a]) == [a];
    assert Insert(c, []) == [c];
    assert Insert(c, [a]) == [a] + [c];
  }

  /** The text of an object, as the host prints it: keys sorted, the undefined member dropped, no white
      space. */
  lemma {:induction false} CanonicalText()
    ensures CanonicalJson(Obj([Member("c", Num(-10)), Member("b", Undefined), Member("a", Num(3))])) == Success("{\"a\":3,\"c\":-10}")
  {
    MembersNormal();
    MembersText();
  }

  /** The texts of the other kinds of values. */
  lemma {:induction false} OtherTexts()
    ensures CanonicalJson(Arr([Num(-10), Bool(true), Null])) == Success("[-10,true,null]")
    ensures CanonicalJson(Str("x\"\n")) == Success("\"x\\\"\\n\"") && CanonicalJson(Bool(false)) == Success("false")
  {
    var items := [Num(-10), Bool(true), Null];
    ItemsText();
    QuotedText();
    assert items[1..] == [Bool(true), Null] && [Bool(true), Null][1..] == [Null] && [Null][1..] == [];
    assert [Null] + [] == [Null] && [Bool(true)] + [Null] == [Bool(true), Null] && [Num(-10)] + [Bool(true), Null] == items;
    assert SerializeItems([]) == Success([]);
    assert SerializeItems([Null]) == Success([Null]);
    assert SerializeItems([Bool(true), Null]) == Success([Bool(true), Null]);
    assert SerializeItems(items) == Success(items);
  }
}
