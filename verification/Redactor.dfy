/** Redaction of payloads (src/core/redactor.ts) in the modes that mask and that remove. */
module Redactor {
  import opened Json
  import opened JsonText

  /** `ssn`, `*.secret` and `card.*`: the last key of a path, any key of it, or its parent key. */
  datatype Pattern = Exact(value: string) | Deep(value: string) | Prefix(value: string)

  datatype Mode = Mask | Remove

  const REDACTED: Json := Str("[REDACTED]")

  type Path = seq<string>

  function CompilePattern(pattern: string): Pattern {
    if |pattern| > 2 && pattern[..2] == "*." then Deep(pattern[2..])
    else if |pattern| > 2 && pattern[|pattern| - 2..] == ".*" then Prefix(pattern[..|pattern| - 2])
    else Exact(pattern)
  }

  predicate Matches(p: Pattern, path: Path) {
    match p
    case Exact(value) => path != [] && path[|path| - 1] == value
    case Deep(value) => value in path
    case Prefix(value) => |path| >= 2 && path[|path| - 2] == value
  }

  predicate IsRedacted(path: Path, patterns: seq<Pattern>) {
    exists i | 0 <= i < |patterns| :: Matches(patterns[i], path)
  }

  function CompileAll(paths: seq<string>): (r: seq<Pattern>)
    ensures |r| == |paths| && forall i | 0 <= i < |r| :: r[i] == CompilePattern(paths[i])
  {
    seq(|paths|, i requires 0 <= i < |paths| => CompilePattern(paths[i]))
  }

  predicate IsDeep(p: string) {
    |p| > 2 && p[..2] == "*."
  }

  predicate IsPrefix(p: string) {
    !IsDeep(p) && |p| > 2 && p[|p| - 2..] == ".*"
  }

  /** What the text of a pattern says of a path: `*.key` that the key is on it, `key.*` that it is
      next to last, any other text that it is last. */
  predicate Names(p: string, path: Path) {
    || (IsDeep(p) && exists i | 0 <= i < |path| :: p == "*." + path[i])
    || (IsPrefix(p) && |path| >= 2 && p == path[|path| - 2] + ".*")
    || (!IsDeep(p) && !IsPrefix(p) && path != [] && path[|path| - 1] == p)
  }

  lemma CompiledMatches(p: string, path: Path)
    ensures Matches(CompilePattern(p), path) <==> Names(p, path)
  {
    if IsDeep(p) {
      assert p == "*." + p[2..];
      forall i | 0 <= i < |path| ensures path[i] == p[2..] <==> p == "*." + path[i] {
        assert ("*." + path[i])[2..] == path[i];
      }
    } else if IsPrefix(p) && |path| >= 2 {
      var key := path[|path| - 2];
      assert p == p[..|p| - 2] + ".*";
      assert (key + ".*")[..|key + ".*"| - 2] == key;
    }
  }

  /** A path is redacted if and only if one of the configured texts names it. */
  lemma RedactedIffNamed(paths: seq<string>, path: Path)
    ensures IsRedacted(path, CompileAll(paths)) <==> exists i | 0 <= i < |paths| :: Names(paths[i], path)
  {
    forall i | 0 <= i < |paths| ensures Matches(CompileAll(paths)[i], path) <==> Names(paths[i], path) {
      CompiledMatches(paths[i], path);
    }
  }

  lemma RedactedByEither(path: Path, a: seq<Pattern>, b: seq<Pattern>)
    ensures IsRedacted(path, a + b) <==> IsRedacted(path, a) || IsRedacted(path, b)
  {
    if IsRedacted(path, a) {
      var i :| 0 <= i < |a| && Matches(a[i], path);
      assert (a + b)[i] == a[i];
    }
    if IsRedacted(path, b) {
      var i :| 0 <= i < |b| && Matches(b[i], path);
      assert (a + b)[|a| + i] == b[i];
    }
    if IsRedacted(path, a + b) {
      var i :| 0 <= i < |a + b| && Matches((a + b)[i], path);
      assert (a + b)[i] == if i < |a| then a[i] else b[i - |a|];
    }
  }

  // ---------------------------------------------------------------------------
  // The transformation

  function Redact(v: Json, path: Path, ps: seq<Pattern>, mode: Mode): Json
    decreases v, 1
  {
    match v
    case Arr(items) => Arr(RedactItems(items, path, ps, mode))
    case Obj(ms) => Obj(RedactMembers(ms, path, ps, mode))
    case Instance(ms) => Obj(RedactMembers(ms, path, ps, mode))
    case _ => v
  }

  function RedactItems(items: seq<Json>, path: Path, ps: seq<Pattern>, mode: Mode): seq<Json>
    decreases items, 0
  {
    if items == [] then []
    else
      var n := |items| - 1;
      RedactItems(items[..n], path, ps, mode) + [Redact(items[n], path + [Decimal(n)], ps, mode)]
  }

  function RedactMembers(ms: seq<Member>, path: Path, ps: seq<Pattern>, mode: Mode): seq<Member>
    decreases ms, 0
  {
    if ms == [] then []
    else
      var n := |ms| - 1;
      RedactMembers(ms[..n], path, ps, mode) + RedactMember(ms[n], path, ps, mode)
  }

  /** What becomes of one member: none or one. */
  function RedactMember(m: Member, path: Path, ps: seq<Pattern>, mode: Mode): seq<Member>
    decreases m, 0
  {
    if !IsRedacted(path + [m.key], ps) then [Member(m.key, Redact(m.value, path + [m.key], ps, mode))]
    else if mode == Remove then []
    else [Member(m.key, REDACTED)]
  }

  lemma {:induction false} RedactItemsAt(items: seq<Json>, path: Path, ps: seq<Pattern>, mode: Mode)
    ensures |RedactItems(items, path, ps, mode)| == |items|
    ensures forall i | 0 <= i < |items| ::
              RedactItems(items, path, ps, mode)[i] == Redact(items[i], path + [Decimal(i)], ps, mode)
  {
    if items == [] {
    } else {
      RedactItemsAt(items[..|items| - 1], path, ps, mode);
    }
  }

  /** The members after redaction are exactly what becomes of each. */
  lemma {:induction false} RedactMembersAre(ms: seq<Member>, path: Path, ps: seq<Pattern>, mode: Mode, m: Member)
    ensures m in RedactMembers(ms, path, ps, mode) <==>
            exists i | 0 <= i < |ms| :: m in RedactMember(ms[i], path, ps, mode)
  {
    if ms == [] {
    } else {
      var init, last := ms[..|ms| - 1], ms[|ms| - 1];
      RedactMembersAre(init, path, ps, mode, m);
      if m in RedactMembers(init, path, ps, mode) {
        var i :| 0 <= i < |init| && m in RedactMember(init[i], path, ps, mode);
        assert ms[i] == init[i];
      }
      if i :| 0 <= i < |ms| && m in RedactMember(ms[i], path, ps, mode) {
        assert i < |init| ==> init[i] == ms[i];
      }
    }
  }

  // ---------------------------------------------------------------------------
  // What stays

  /** What is left of a value on a path that is not redacted. */
  predicate Redacts(m: Member, r: Member, path: Path, ps: seq<Pattern>, mode: Mode) {
    r.key == m.key && r.value == Redact(m.value, path + [m.key], ps, mode)
  }

  /** Masking keeps every member under its key and in its place; the value of a redacted one is the mask. */
  lemma {:induction false} MaskKeepsEveryKey(ms: seq<Member>, path: Path, ps: seq<Pattern>)
    ensures |RedactMembers(ms, path, ps, Mask)| == |ms|
    ensures forall i | 0 <= i < |ms| ::
              var r := RedactMembers(ms, path, ps, Mask)[i];
              if IsRedacted(path + [ms[i].key], ps) then r == Member(ms[i].key, REDACTED) else Redacts(ms[i], r, path, ps, Mask)
  {
    if ms == [] {
    } else {
      MaskKeepsEveryKey(ms[..|ms| - 1], path, ps);
    }
  }

  /** The members at paths that are not redacted, in order. */
  function Others(ms: seq<Member>, path: Path, ps: seq<Pattern>): seq<Member> {
    if ms == [] then []
    else
      var last := ms[|ms| - 1];
      Others(ms[..|ms| - 1], path, ps) + (if IsRedacted(path + [last.key], ps) then [] else [last])
  }

  /** Removing drops the redacted members and keeps the others, in order. */
  lemma {:induction false} RemoveKeepsTheOthers(ms: seq<Member>, path: Path, ps: seq<Pattern>)
    ensures |RedactMembers(ms, path, ps, Remove)| == |Others(ms, path, ps)|
    ensures forall i | 0 <= i < |Others(ms, path, ps)| ::
              Redacts(Others(ms, path, ps)[i], RedactMembers(ms, path, ps, Remove)[i], path, ps, Remove)
  {
    if ms == [] {
    } else {
      RemoveKeepsTheOthers(ms[..|ms| - 1], path, ps);
    }
  }

  // ---------------------------------------------------------------------------
  // Nothing redacted is left

  /** No member at a redacted path has its value, at any depth. */
  predicate Clean(v: Json, path: Path, ps: seq<Pattern>, mode: Mode) {
    match v
    case Arr(items) => forall i | 0 <= i < |items| :: Clean(items[i], path + [Decimal(i)], ps, mode)
    case Obj(ms) => forall i | 0 <= i < |ms| :: CleanMember(ms[i], path, ps, mode)
    case Instance(ms) => false
    case _ => true
  }

  predicate CleanMember(m: Member, path: Path, ps: seq<Pattern>, mode: Mode) {
    if IsRedacted(path + [m.key], ps) then mode == Mask && m.value == REDACTED
    else Clean(m.value, path + [m.key], ps, mode)
  }

  lemma {:induction false} RedactionCleans(v: Json, path: Path, ps: seq<Pattern>, mode: Mode)
    ensures Clean(Redact(v, path, ps, mode), path, ps, mode)
    decreases v, 1
  {
    match v
    case Arr(items) =>
      RedactItemsAt(items, path, ps, mode);
      forall i | 0 <= i < |items| ensures Clean(Redact(items[i], path + [Decimal(i)], ps, mode), path + [Decimal(i)], ps, mode) {
        RedactionCleans(items[i], path + [Decimal(i)], ps, mode);
      }
    case Obj(ms) => MembersClean(ms, path, ps, mode);
    case Instance(ms) => MembersClean(ms, path, ps, mode);
    case _ =>
  }

  lemma {:induction false} MembersClean(ms: seq<Member>, path: Path, ps: seq<Pattern>, mode: Mode)
    ensures Clean(Obj(RedactMembers(ms, path, ps, mode)), path, ps, mode)
    decreases ms, 0
  {
    if ms == [] {
    } else {
      var n := |ms| - 1;
      MembersClean(ms[..n], path, ps, mode);
      if !IsRedacted(path + [ms[n].key], ps) {
        RedactionCleans(ms[n].value, path + [ms[n].key], ps, mode);
      }
      assert forall m | m in RedactMember(ms[n], path, ps, mode) :: CleanMember(m, path, ps, mode);
    }
  }

  lemma {:induction false} CleanStays(v: Json, path: Path, ps: seq<Pattern>, mode: Mode)
    requires Clean(v, path, ps, mode)
    ensures Redact(v, path, ps, mode) == v
    decreases v, 1
  {
    match v
    case Arr(items) =>
      RedactItemsAt(items, path, ps, mode);
      forall i | 0 <= i < |items| ensures Redact(items[i], path + [Decimal(i)], ps, mode) == items[i] {
        CleanStays(items[i], path + [Decimal(i)], ps, mode);
      }
      assert RedactItems(items, path, ps, mode) == items;
    case Obj(ms) => CleanMembersStay(ms, path, ps, mode);
    case _ =>
  }

  lemma {:induction false} CleanMembersStay(ms: seq<Member>, path: Path, ps: seq<Pattern>, mode: Mode)
    requires forall i | 0 <= i < |ms| :: CleanMember(ms[i], path, ps, mode)
    ensures RedactMembers(ms, path, ps, mode) == ms
    decreases ms, 0
  {
    if ms == [] {
    } else {
      var n := |ms| - 1;
      CleanMembersStay(ms[..n], path, ps, mode);
      assert CleanMember(ms[n], path, ps, mode);
      if !IsRedacted(path + [ms[n].key], ps) {
        CleanStays(ms[n].value, path + [ms[n].key], ps, mode);
      }
      assert ms == ms[..n] + [ms[n]];
    }
  }

  /** A value is left as it is if and only if nothing in it is to be redacted. */
  lemma UnchangedIffClean(v: Json, path: Path, ps: seq<Pattern>, mode: Mode)
    ensures Redact(v, path, ps, mode) == v <==> Clean(v, path, ps, mode)
  {
    RedactionCleans(v, path, ps, mode);
    if Clean(v, path, ps, mode) {
      CleanStays(v, path, ps, mode);
    }
  }

  // ---------------------------------------------------------------------------
  // Redacting twice

  /** Redacting by one list and then by another is redacting once by both. */
  lemma {:induction false} RedactCompose(v: Json, path: Path, a: seq<Pattern>, b: seq<Pattern>, mode: Mode)
    ensures Redact(Redact(v, path, a, mode), path, b, mode) == Redact(v, path, a + b, mode)
    decreases v, 1
  {
    match v
    case Arr(items) => ItemsCompose(items, path, a, b, mode);
    case Obj(ms) => MembersCompose(ms, path, a, b, mode);
    case Instance(ms) => MembersCompose(ms, path, a, b, mode);
    case _ =>
  }

  lemma {:induction false} ItemsCompose(items: seq<Json>, path: Path, a: seq<Pattern>, b: seq<Pattern>, mode: Mode)
    ensures RedactItems(RedactItems(items, path, a, mode), path, b, mode) == RedactItems(items, path, a + b, mode)
    decreases items, 0
  {
    if items == [] {
    } else {
      var n := |items| - 1;
      var before := RedactItems(items[..n], path, a, mode);
      var last := Redact(items[n], path + [Decimal(n)], a, mode);
      RedactItemsAt(items[..n], path, a, mode);
      assert (before + [last])[..n] == before;
      ItemsCompose(items[..n], path, a, b, mode);
      RedactCompose(items[n], path + [Decimal(n)], a, b, mode);
    }
  }

  lemma RedactMembersAppend(ms: seq<Member>, m: Member, path: Path, ps: seq<Pattern>, mode: Mode)
    ensures RedactMembers(ms + [m], path, ps, mode) == RedactMembers(ms, path, ps, mode) + RedactMember(m, path, ps, mode)
  {
    assert (ms + [m])[..|ms|] == ms;
  }

  lemma {:induction false} MemberCompose(m: Member, path: Path, a: seq<Pattern>, b: seq<Pattern>, mode: Mode)
    ensures RedactMember(m, path, a + b, mode) ==
            if RedactMember(m, path, a, mode) == [] then [] else RedactMember(RedactMember(m, path, a, mode)[0], path, b, mode)
    decreases m, 0
  {
    RedactedByEither(path + [m.key], a, b);
    if !IsRedacted(path + [m.key], a) {
      RedactCompose(m.value, path + [m.key], a, b, mode);
    }
  }

  lemma {:induction false} MembersCompose(ms: seq<Member>, path: Path, a: seq<Pattern>, b: seq<Pattern>, mode: Mode)
    ensures RedactMembers(RedactMembers(ms, path, a, mode), path, b, mode) == RedactMembers(ms, path, a + b, mode)
    decreases ms, 0
  {
    if ms == [] {
    } else {
      var n := |ms| - 1;
      var before, last := RedactMembers(ms[..n], path, a, mode), RedactMember(ms[n], path, a, mode);
      MembersCompose(ms[..n], path, a, b, mode);
      MemberCompose(ms[n], path, a, b, mode);
      if last == [] {
        assert before + last == before;
      } else {
        assert last == [last[0]];
        RedactMembersAppend(before, last[0], path, b, mode);
      }
    }
  }

  /** Redaction is idempotent. */
  lemma RedactTwice(v: Json, path: Path, ps: seq<Pattern>, mode: Mode)
    ensures Redact(Redact(v, path, ps, mode), path, ps, mode) == Redact(v, path, ps, mode)
  {
    UnchangedIffClean(Redact(v, path, ps, mode), path, ps, mode);
    RedactionCleans(v, path, ps, mode);
  }

  // ---------------------------------------------------------------------------
  // The loops

  /** The loop over the patterns, with its early return. */
  method TestPath(path: Path, patterns: seq<Pattern>) returns (r: bool)
    ensures r == IsRedacted(path, patterns)
  {
    for i := 0 to |patterns|
      invariant forall j | 0 <= j < i :: !Matches(patterns[j], path)
    {
      var pattern := patterns[i];
      if pattern.Exact? {
        if path != [] && path[|path| - 1] == pattern.value {
          return true;
        }
        continue;
      }
      if pattern.Deep? {
        if pattern.value in path {
          return true;
        }
        continue;
      }
      if |path| >= 2 && path[|path| - 2] == pattern.value {
        return true;
      }
    }
    return false;
  }

  /** The recursive pass, which fills a fresh object member by member. */
  method RedactValue(v: Json, path: Path, patterns: seq<Pattern>, mode: Mode) returns (r: Json)
    ensures r == Redact(v, path, patterns, mode)
    decreases v
  {
    match v
    case Arr(items) =>
      var out: seq<Json> := [];
      for i := 0 to |items|
        invariant |out| == i && out == RedactItems(items[..i], path, patterns, mode)
      {
        var item := RedactValue(items[i], path + [Decimal(i)], patterns, mode);
        assert items[..i + 1][..i] == items[..i];
        out := out + [item];
      }
      assert items[..|items|] == items;
      return Arr(out);
    case Obj(ms) =>
      var result := RedactEntries(ms, path, patterns, mode);
      return Obj(result);
    case Instance(ms) =>
      var result := RedactEntries(ms, path, patterns, mode);
      return Obj(result);
    case _ => return v;
  }

  method RedactEntries(ms: seq<Member>, path: Path, patterns: seq<Pattern>, mode: Mode) returns (result: seq<Member>)
    ensures result == RedactMembers(ms, path, patterns, mode)
    decreases ms
  {
    result := [];
    for i := 0 to |ms|
      invariant result == RedactMembers(ms[..i], path, patterns, mode)
    {
      assert ms[..i + 1] == ms[..i] + [ms[i]];
      RedactMembersAppend(ms[..i], ms[i], path, patterns, mode);
      var childPath := path + [ms[i].key];
      var redacted := TestPath(childPath, patterns);
      if redacted {
        if mode == Remove {
          continue;
        }
        result := result + [Member(ms[i].key, REDACTED)];
        continue;
      }
      var child := RedactValue(ms[i].value, childPath, patterns, mode);
      result := result + [Member(ms[i].key, child)];
    }
    assert ms[..|ms|] == ms;
  }
}
