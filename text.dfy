/**
 * String primitives standing in for the JavaScript string methods and the
 * small regular expressions the generator uses. Every regular expression of
 * the generator is encoded elsewhere as a combination of these prefix,
 * suffix and substring predicates.
 */
module Text {

  /** ASCII lower-casing of one character (String.prototype.toLowerCase on ASCII). */
  function LowerChar(c: char): char {
    if 'A' <= c <= 'Z' then (c as int + 32) as char else c
  }

  function UpperChar(c: char): char {
    if 'a' <= c <= 'z' then (c as int - 32) as char else c
  }

  function Lower(s: string): (r: string)
    ensures |r| == |s|
    ensures forall i :: 0 <= i < |s| ==> r[i] == LowerChar(s[i])
  {
    if s == [] then [] else [LowerChar(s[0])] + Lower(s[1..])
  }

  function Upper(s: string): (r: string)
    ensures |r| == |s|
    ensures forall i :: 0 <= i < |s| ==> r[i] == UpperChar(s[i])
  {
    if s == [] then [] else [UpperChar(s[0])] + Upper(s[1..])
  }

  /** Lower-casing twice is lower-casing once, so matching on a lower-cased type is stable. */
  lemma LowerIdempotent(s: string)
    ensures Lower(Lower(s)) == Lower(s)
  {
    assert forall i :: 0 <= i < |s| ==> LowerChar(LowerChar(s[i])) == LowerChar(s[i]);
  }

  predicate StartsWith(s: string, p: string) {
    p <= s
  }

  predicate EndsWith(s: string, p: string) {
    |p| <= |s| && s[|s| - |p|..] == p
  }

  /** Substring search, `s.includes(p)` or an unanchored regular expression on a literal. */
  predicate Contains(s: string, p: string)
    decreases |s|
  {
    StartsWith(s, p) || (|s| > 0 && Contains(s[1..], p))
  }

  /** Concatenation is associative; stated once so proofs about long texts need not reason index by index. */
  lemma AppendAssoc(a: string, b: string, c: string)
    ensures a + (b + c) == (a + b) + c
  {
  }

  /** The appended part is a suffix of the whole. */
  lemma EndsWithSuffix(a: string, b: string)
    ensures EndsWith(a + b, b)
  {
    assert (a + b)[|a|..] == b;
  }

  /** The empty text is a unit of concatenation. */
  lemma AppendEmpty(a: string)
    ensures a + "" == a && "" + a == a
  {
  }

  /** A suffix of the appended part is a suffix of the whole. */
  lemma EndsWithAppend(a: string, b: string, p: string)
    requires EndsWith(b, p)
    ensures EndsWith(a + b, p)
  {
    assert (a + b)[|a + b| - |p|..] == b[|b| - |p|..];
  }

  lemma {:induction false} ContainsAt(s: string, p: string, i: nat)
    requires i <= |s| && StartsWith(s[i..], p)
    ensures Contains(s, p)
    decreases i
  {
    if i > 0 {
      assert s[1..][i - 1..] == s[i..];
      ContainsAt(s[1..], p, i - 1);
    }
  }

  /** A string that does not contain the character c cannot contain a pattern that does. */
  lemma {:induction false} NotContainsChar(s: string, p: string, c: char)
    requires c !in s && c in p
    ensures !Contains(s, p)
    decreases |s|
  {
    var k :| 0 <= k < |p| && p[k] == c;
    if k < |s| {
      assert s[k] != p[k];
    }
    if |s| > 0 {
      NotContainsChar(s[1..], p, c);
    }
  }

  function Join(xs: seq<string>, sep: string): string {
    if |xs| == 0 then ""
    else if |xs| == 1 then xs[0]
    else xs[0] + sep + Join(xs[1..], sep)
  }

  /** `s.split(c)` for a one-character separator: never empty, "" splits to [""]. */
  function Split(s: string, c: char): (r: seq<string>)
    ensures |r| >= 1
    ensures forall k :: 0 <= k < |r| ==> c !in r[k]
  {
    if s == [] then [""]
    else if s[0] == c then [""] + Split(s[1..], c)
    else
      var rest := Split(s[1..], c);
      [[s[0]] + rest[0]] + rest[1..]
  }

  lemma {:induction false} SplitWithout(s: string, c: char)
    requires c !in s
    ensures Split(s, c) == [s]
  {
    if s != [] {
      SplitWithout(s[1..], c);
      assert [s[0]] + s[1..] == s;
    }
  }

  /** The first separator ends the first piece. */
  lemma {:induction false} SplitAtFirst(a: string, c: char, b: string)
    requires c !in a
    ensures Split(a + [c] + b, c) == [a] + Split(b, c)
  {
    if a == [] {
      assert a + [c] + b == [c] + b;
      assert ([c] + b)[1..] == b;
    } else {
      assert (a + [c] + b)[1..] == a[1..] + [c] + b;
      SplitAtFirst(a[1..], c, b);
      assert [a[0]] + a[1..] == a;
    }
  }

  /** Splitting and joining with the same separator gives back the string. */
  lemma {:induction false} SplitJoin(s: string, c: char)
    ensures Join(Split(s, c), [c]) == s
  {
    if s == [] {
    } else if s[0] == c {
      SplitJoin(s[1..], c);
      var rest := Split(s[1..], c);
      assert Split(s, c) == [""] + rest;
      assert Join(Split(s, c), [c]) == "" + [c] + Join(rest, [c]);
    } else {
      SplitJoin(s[1..], c);
      var rest := Split(s[1..], c);
      var r := Split(s, c);
      assert r == [[s[0]] + rest[0]] + rest[1..];
      if |rest| == 1 {
        assert Join(r, [c]) == [s[0]] + rest[0];
      } else {
        assert Join(rest, [c]) == rest[0] + [c] + Join(rest[1..], [c]);
        assert r[1..] == rest[1..];
        assert Join(r, [c]) == [s[0]] + rest[0] + [c] + Join(rest[1..], [c]);
      }
    }
  }

  function Map(xs: seq<string>, f: string -> string): (r: seq<string>)
    ensures |r| == |xs| && forall k :: 0 <= k < |xs| ==> r[k] == f(xs[k])
  {
    if xs == [] then [] else [f(xs[0])] + Map(xs[1..], f)
  }

  /**
   * GetSubstitution of String.prototype.replace (section 22.1.3.19.1 of
   * ECMA-262) for a pattern without capture groups: in the replacement
   * string `$$` stands for `$`, `$&` for the matched text, `` $` `` for the
   * text before the match and `$'` for the text after it; every other
   * character, a lone `$` included, is copied.
   */
  function Substitution(rep: string, matched: string, before: string, after: string): string
    decreases |rep|
  {
    if |rep| == 0 then ""
    else if |rep| >= 2 && rep[0] == '$' && IsDollarCode(rep[1]) then
      DollarCode(rep[1], matched, before, after) + Substitution(rep[2..], matched, before, after)
    else [rep[0]] + Substitution(rep[1..], matched, before, after)
  }

  /** The characters that give `$` a meaning in a replacement without capture groups. */
  predicate IsDollarCode(c: char) {
    c == '$' || c == '&' || c == '`' || c == '\''
  }

  /** What `$` followed by c inserts. */
  function DollarCode(c: char, matched: string, before: string, after: string): string
    requires IsDollarCode(c)
  {
    if c == '$' then "$" else if c == '&' then matched else if c == '`' then before else after
  }

  /** A replacement without `$` is inserted as it is. */
  lemma {:induction false} SubstitutionPlain(rep: string, matched: string, before: string, after: string)
    requires '$' !in rep
    ensures Substitution(rep, matched, before, after) == rep
    decreases |rep|
  {
    if |rep| > 0 {
      SubstitutionPlain(rep[1..], matched, before, after);
      assert [rep[0]] + rep[1..] == rep;
    }
  }

  /** A `$`-free front of the replacement is copied, whatever follows it. */
  lemma {:induction false} SubstitutionCleanFront(a: string, t: string, matched: string, before: string, after: string)
    requires '$' !in a
    ensures Substitution(a + t, matched, before, after) == a + Substitution(t, matched, before, after)
    decreases |a|
  {
    if |a| > 0 {
      assert a[0] in a;
      var at := a + t;
      assert at[0] == a[0] && at[1..] == a[1..] + t;
      assert Substitution(at, matched, before, after) == [a[0]] + Substitution(at[1..], matched, before, after);
      SubstitutionCleanFront(a[1..], t, matched, before, after);
      assert [a[0]] + a[1..] == a;
      AppendAssoc([a[0]], a[1..], Substitution(t, matched, before, after));
    } else {
      assert a + t == t;
    }
  }

  /** `$$` collapses: the replacement `order$$log` inserts `order$log`. */
  lemma DollarDollar(rep: string, matched: string, before: string, after: string)
    requires rep == "order$$log"
    ensures Substitution(rep, matched, before, after) == "order$log"
  {
    var t := "$$log";
    assert rep == "order" + t;
    SubstitutionCleanFront("order", t, matched, before, after);
    assert t[2..] == "log";
    SubstitutionPlain("log", matched, before, after);
  }

  /** `$&` inserts the matched text: `a$&b` puts the pattern back between `a` and `b`. */
  lemma DollarAmpersand(rep: string, matched: string, before: string, after: string)
    requires rep == "a$&b"
    ensures Substitution(rep, matched, before, after) == "a" + matched + "b"
  {
    var t := "$&b";
    assert rep == "a" + t;
    SubstitutionCleanFront("a", t, matched, before, after);
    assert t[2..] == "b";
    SubstitutionPlain("b", matched, before, after);
  }

  /**
   * The matches of `s.replace(new RegExp(pat, 'g'), rep)` from position i on,
   * for a pattern without metacharacters: left to right, non-overlapping, each
   * replaced by the substitution for its own surroundings in s.
   */
  function ReplaceFrom(s: string, i: nat, pat: string, rep: string): string
    requires |pat| > 0 && i <= |s|
    decreases |s| - i
  {
    if i == |s| then ""
    else if StartsWith(s[i..], pat) then
      Substitution(rep, pat, s[..i], s[i + |pat|..]) + ReplaceFrom(s, i + |pat|, pat, rep)
    else [s[i]] + ReplaceFrom(s, i + 1, pat, rep)
  }

  /** `s.replace(new RegExp(pat, 'g'), rep)`. */
  function ReplaceAll(s: string, pat: string, rep: string): string
    requires |pat| > 0
  {
    ReplaceFrom(s, 0, pat, rep)
  }

  /** A stretch of s without the pattern's first character is copied as it is. */
  lemma {:induction false} ReplaceFromClean(s: string, i: nat, j: nat, pat: string, rep: string)
    requires |pat| > 0 && i <= j <= |s| && pat[0] !in s[i..j]
    ensures ReplaceFrom(s, i, pat, rep) == s[i..j] + ReplaceFrom(s, j, pat, rep)
    decreases j - i
  {
    if i < j {
      NoMatchAt(s, i, j, pat);
      assert s[i + 1..j] == s[i..j][1..];
      ReplaceFromClean(s, i + 1, j, pat, rep);
      assert [s[i]] + s[i + 1..j] == s[i..j];
    }
  }

  lemma NoMatchAt(s: string, i: nat, j: nat, pat: string)
    requires |pat| > 0 && i < j <= |s| && pat[0] !in s[i..j]
    ensures !StartsWith(s[i..], pat)
  {
    assert s[i..j][0] == s[i] == s[i..][0];
  }

  /** A match at position i is replaced by its substitution. */
  lemma ReplaceFromMatch(s: string, i: nat, pat: string, rep: string)
    requires |pat| > 0 && i + |pat| <= |s| && s[i..i + |pat|] == pat
    ensures ReplaceFrom(s, i, pat, rep)
         == Substitution(rep, pat, s[..i], s[i + |pat|..]) + ReplaceFrom(s, i + |pat|, pat, rep)
  {
    assert s[i..][..|pat|] == s[i..i + |pat|];
  }

  /** Text without any occurrence of the pattern's first character is left as it is. */
  lemma ReplaceAllAbsent(s: string, pat: string, rep: string)
    requires |pat| > 0 && pat[0] !in s
    ensures ReplaceAll(s, pat, rep) == s
  {
    assert s[0..|s|] == s;
    ReplaceFromClean(s, 0, |s|, pat, rep);
  }

  /**
   * Every occurrence is replaced, wherever it stands: a placeholder between
   * two clean pieces becomes the substitution for those pieces, which is the
   * replacement itself when it holds no `$`.
   */
  lemma ReplaceAllSplices(a: string, pat: string, rep: string, b: string)
    requires |pat| > 0 && pat[0] !in a && pat[0] !in b
    ensures ReplaceAll(a + pat + b, pat, rep) == a + Substitution(rep, pat, a, b) + b
    ensures '$' !in rep ==> ReplaceAll(a + pat + b, pat, rep) == a + rep + b
  {
    var s := a + pat + b;
    SpliceParts(a, pat, b);
    ReplaceOneMatch(s, |a|, pat, rep);
    if '$' !in rep {
      SubstitutionPlain(rep, pat, a, b);
    }
  }

  /** The pieces of a + pat + b, by position. */
  lemma SpliceParts(a: string, pat: string, b: string)
    ensures var s := a + pat + b; var j := |a| + |pat|;
      && s[..|a|] == a && s[|a|..j] == pat && s[j..] == b
  {
  }

  /** A text whose only possible match stands at i: the text around it is kept, the match substituted. */
  lemma ReplaceOneMatch(s: string, i: nat, pat: string, rep: string)
    requires |pat| > 0 && i + |pat| <= |s| && s[i..i + |pat|] == pat
    requires pat[0] !in s[..i] && pat[0] !in s[i + |pat|..]
    ensures ReplaceAll(s, pat, rep) == s[..i] + Substitution(rep, pat, s[..i], s[i + |pat|..]) + s[i + |pat|..]
  {
    var j := i + |pat|;
    var pre, post := s[..i], s[j..];
    var sub := Substitution(rep, pat, pre, post);
    assert s[0..i] == pre && s[j..|s|] == post;
    ReplaceFromClean(s, j, |s|, pat, rep);
    assert ReplaceFrom(s, |s|, pat, rep) == "";
    assert ReplaceFrom(s, j, pat, rep) == post;
    ReplaceFromMatch(s, i, pat, rep);
    assert ReplaceFrom(s, i, pat, rep) == sub + post;
    ReplaceFromClean(s, 0, i, pat, rep);
    AppendAssoc(pre, sub, post);
  }

  /** White space as String.prototype.trim understands it. */
  predicate IsSpace(c: char) {
    c == ' ' || c == '\t' || c == '\n' || c == '\r' || c == '\U{B}' || c == '\U{C}'
    || c == '\U{A0}' || c == '\U{FEFF}' || c == '\U{1680}' || ('\U{2000}' <= c <= '\U{200A}')
    || c == '\U{2028}' || c == '\U{2029}' || c == '\U{202F}' || c == '\U{205F}' || c == '\U{3000}'
  }

  function TrimStart(s: string): (r: string)
    ensures |r| <= |s| && EndsWith(s, r)
    ensures r == [] || !IsSpace(r[0])
  {
    if |s| > 0 && IsSpace(s[0]) then TrimStart(s[1..]) else s
  }

  function TrimEnd(s: string): (r: string)
    ensures StartsWith(s, r)
    ensures r == [] || !IsSpace(r[|r| - 1])
  {
    if |s| > 0 && IsSpace(s[|s| - 1]) then TrimEnd(s[..|s| - 1]) else s
  }

  /** `s.trim()`. */
  function Trim(s: string): (r: string)
    ensures r == [] || (!IsSpace(r[0]) && !IsSpace(r[|r| - 1]))
  {
    TrimEnd(TrimStart(s))
  }

  /** `s.replace(/c+$/, '')`: drops the run of c at the end. */
  function DropTrailing(s: string, c: char): (r: string)
    ensures StartsWith(s, r)
    ensures r == [] || r[|r| - 1] != c
    ensures forall k :: |r| <= k < |s| ==> s[k] == c
  {
    if |s| > 0 && s[|s| - 1] == c then DropTrailing(s[..|s| - 1], c) else s
  }

  /** `s.substring(a, b)`: both ends are clamped into [0, |s|] and swapped when out of order. */
  function Substring(s: string, a: int, b: int): (r: string)
    ensures |r| <= |s|
    ensures 0 <= a <= b <= |s| ==> r == s[a..b]
  {
    var lo := if a < 0 then 0 else if a > |s| then |s| else a;
    var hi := if b < 0 then 0 else if b > |s| then |s| else b;
    if lo <= hi then s[lo..hi] else s[hi..lo]
  }

  predicate IsDigit(c: char) {
    '0' <= c <= '9'
  }

  /** `\w` of a regular expression. */
  predicate IsWordChar(c: char) {
    IsDigit(c) || ('a' <= c <= 'z') || ('A' <= c <= 'Z') || c == '_'
  }

  function DigitString(d: nat): (r: string)
    requires d < 10
    ensures |r| == 1 && IsDigit(r[0])
  {
    ["0123456789"[d]]
  }

  /** Decimal rendering of a natural number, as String(n) gives it. */
  function NatToString(n: nat): (r: string)
    ensures |r| >= 1 && forall k :: 0 <= k < |r| ==> IsDigit(r[k])
  {
    if n < 10 then DigitString(n) else NatToString(n / 10) + DigitString(n % 10)
  }

  /** Decimal rendering of an integer. */
  function IntToString(n: int): (r: string)
    ensures n >= 0 ==> r == NatToString(n)
    ensures n < 0 ==> r == "-" + NatToString(-n)
  {
    if n < 0 then "-" + NatToString(-n) else NatToString(n)
  }

  /** Code-unit order, as Array.prototype.sort compares strings by default. */
  predicate LessEq(a: string, b: string) {
    if a == [] then true
    else if b == [] then false
    else if a[0] != b[0] then a[0] < b[0]
    else LessEq(a[1..], b[1..])
  }

  lemma {:induction false} LessEqTotal(a: string, b: string)
    ensures LessEq(a, b) || LessEq(b, a)
  {
    if a != [] && b != [] && a[0] == b[0] {
      LessEqTotal(a[1..], b[1..]);
    }
  }

  lemma {:induction false} LessEqTransitive(a: string, b: string, c: string)
    requires LessEq(a, b) && LessEq(b, c)
    ensures LessEq(a, c)
  {
    if a != [] && b != [] && c != [] && a[0] == b[0] && b[0] == c[0] {
      LessEqTransitive(a[1..], b[1..], c[1..]);
    }
  }
}
