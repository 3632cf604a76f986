/**
 * `escapeSpecial` and `quoteName` (lib/auto-generator.js:748-765).
 */
module Quoting {
  import opened Text
  import opened Schema

  const Backspace: char := '\U{8}'
  const FormFeed: char := '\U{C}'

  /** `s.replace(/[c]/g, rep)`. */
  function ReplaceChar(s: string, c: char, rep: string): (r: string)
    ensures c !in rep ==> c !in r
  {
    if s == [] then []
    else (if s[0] == c then rep else [s[0]]) + ReplaceChar(s[1..], c, rep)
  }

  lemma {:induction false} ReplaceCharKeepsOut(s: string, c: char, rep: string, d: char)
    requires d !in s && d !in rep
    ensures d !in ReplaceChar(s, c, rep)
  {
    if s != [] {
      ReplaceCharKeepsOut(s[1..], c, rep, d);
    }
  }

  lemma {:induction false} ReplaceCharConcat(a: string, b: string, c: char, rep: string)
    ensures ReplaceChar(a + b, c, rep) == ReplaceChar(a, c, rep) + ReplaceChar(b, c, rep)
  {
    if a == [] {
      assert a + b == b;
      AppendEmpty(ReplaceChar(b, c, rep));
    } else {
      assert (a + b)[1..] == a[1..] + b;
      ReplaceCharConcat(a[1..], b, c, rep);
    }
  }

  /** The eight global replacements of `escapeSpecial`, in the source's order. */
  function EscapeSpecial(s: string): (r: string)
    ensures Backspace !in r && FormFeed !in r && '\n' !in r && '\r' !in r && '\t' !in r
  {
    var s1 := ReplaceChar(s, '\\', "\\\\");
    var s2 := ReplaceChar(s1, '"', "\\\"");
    var s3 := ReplaceChar(s2, '/', "\\/");
    var s4 := ReplaceChar(s3, Backspace, "\\b");
    var s5 := ReplaceChar(s4, FormFeed, "\\f");
    var s6 := ReplaceChar(s5, '\n', "\\n");
    var s7 := ReplaceChar(s6, '\r', "\\r");
    ReplaceEscapes(s, s4, s5, s6, s7);
    ReplaceChar(s7, '\t', "\\t")
  }

  /** Each later replacement keeps out the characters the earlier ones removed. */
  lemma ReplaceEscapes(s: string, s4: string, s5: string, s6: string, s7: string)
    requires Backspace !in s4
    requires s5 == ReplaceChar(s4, FormFeed, "\\f")
    requires s6 == ReplaceChar(s5, '\n', "\\n")
    requires s7 == ReplaceChar(s6, '\r', "\\r")
    ensures Backspace !in ReplaceChar(s7, '\t', "\\t")
    ensures FormFeed !in ReplaceChar(s7, '\t', "\\t")
    ensures '\n' !in ReplaceChar(s7, '\t', "\\t")
    ensures '\r' !in ReplaceChar(s7, '\t', "\\t")
  {
    ReplaceCharKeepsOut(s4, FormFeed, "\\f", Backspace);
    ReplaceCharKeepsOut(s5, '\n', "\\n", Backspace);
    ReplaceCharKeepsOut(s6, '\r', "\\r", Backspace);
    ReplaceCharKeepsOut(s7, '\t', "\\t", Backspace);
    ReplaceCharKeepsOut(s5, '\n', "\\n", FormFeed);
    ReplaceCharKeepsOut(s6, '\r', "\\r", FormFeed);
    ReplaceCharKeepsOut(s7, '\t', "\\t", FormFeed);
    ReplaceCharKeepsOut(s6, '\r', "\\r", '\n');
    ReplaceCharKeepsOut(s7, '\t', "\\t", '\n');
    ReplaceCharKeepsOut(s7, '\t', "\\t", '\r');
  }

  /** An independent reference: what one character becomes once escaped. */
  function EscapeChar(c: char): string {
    if c == '\\' then "\\\\"
    else if c == '"' then "\\\""
    else if c == '/' then "\\/"
    else if c == Backspace then "\\b"
    else if c == FormFeed then "\\f"
    else if c == '\n' then "\\n"
    else if c == '\r' then "\\r"
    else if c == '\t' then "\\t"
    else [c]
  }

  function EscapeEach(s: string): string {
    if s == [] then [] else EscapeChar(s[0]) + EscapeEach(s[1..])
  }

  lemma EscapeSpecialConcat(a: string, b: string)
    ensures EscapeSpecial(a + b) == EscapeSpecial(a) + EscapeSpecial(b)
  {
    var a1, b1 := ReplaceChar(a, '\\', "\\\\"), ReplaceChar(b, '\\', "\\\\");
    ReplaceCharConcat(a, b, '\\', "\\\\");
    var a2, b2 := ReplaceChar(a1, '"', "\\\""), ReplaceChar(b1, '"', "\\\"");
    ReplaceCharConcat(a1, b1, '"', "\\\"");
    var a3, b3 := ReplaceChar(a2, '/', "\\/"), ReplaceChar(b2, '/', "\\/");
    ReplaceCharConcat(a2, b2, '/', "\\/");
    var a4, b4 := ReplaceChar(a3, Backspace, "\\b"), ReplaceChar(b3, Backspace, "\\b");
    ReplaceCharConcat(a3, b3, Backspace, "\\b");
    var a5, b5 := ReplaceChar(a4, FormFeed, "\\f"), ReplaceChar(b4, FormFeed, "\\f");
    ReplaceCharConcat(a4, b4, FormFeed, "\\f");
    var a6, b6 := ReplaceChar(a5, '\n', "\\n"), ReplaceChar(b5, '\n', "\\n");
    ReplaceCharConcat(a5, b5, '\n', "\\n");
    var a7, b7 := ReplaceChar(a6, '\r', "\\r"), ReplaceChar(b6, '\r', "\\r");
    ReplaceCharConcat(a6, b6, '\r', "\\r");
    ReplaceCharConcat(a7, b7, '\t', "\\t");
  }

  /** One replacement pass on text without the character, or on a single character. */
  lemma {:induction false} ReplaceCharStep(s: string, c: char, rep: string)
    ensures c !in s ==> ReplaceChar(s, c, rep) == s
    ensures |s| == 1 ==> ReplaceChar(s, c, rep) == if s[0] == c then rep else s
  {
    if s != [] {
      ReplaceCharStep(s[1..], c, rep);
    }
  }

  /** The passes after the one that produced `s`, when none of them finds its character in `s`. */
  lemma PassesAbsent(s: string, from: nat)
    requires 1 <= from <= 8
    requires from <= 1 ==> '"' !in s
    requires from <= 2 ==> '/' !in s
    requires from <= 3 ==> Backspace !in s
    requires from <= 4 ==> FormFeed !in s
    requires from <= 5 ==> '\n' !in s
    requires from <= 6 ==> '\r' !in s
    requires from <= 7 ==> '\t' !in s
    ensures from <= 1 ==> ReplaceChar(s, '"', "\\\"") == s
    ensures from <= 2 ==> ReplaceChar(s, '/', "\\/") == s
    ensures from <= 3 ==> ReplaceChar(s, Backspace, "\\b") == s
    ensures from <= 4 ==> ReplaceChar(s, FormFeed, "\\f") == s
    ensures from <= 5 ==> ReplaceChar(s, '\n', "\\n") == s
    ensures from <= 6 ==> ReplaceChar(s, '\r', "\\r") == s
    ensures from <= 7 ==> ReplaceChar(s, '\t', "\\t") == s
  {
    ReplaceCharStep(s, '"', "\\\"");
    ReplaceCharStep(s, '/', "\\/");
    ReplaceCharStep(s, Backspace, "\\b");
    ReplaceCharStep(s, FormFeed, "\\f");
    ReplaceCharStep(s, '\n', "\\n");
    ReplaceCharStep(s, '\r', "\\r");
    ReplaceCharStep(s, '\t', "\\t");
  }

  /** Each pass on a single character: it either escapes it or leaves it alone. */
  lemma PassesOnSingle(c: char)
    ensures ReplaceChar([c], '\\', "\\\\") == if c == '\\' then "\\\\" else [c]
    ensures ReplaceChar([c], '"', "\\\"") == if c == '"' then "\\\"" else [c]
    ensures ReplaceChar([c], '/', "\\/") == if c == '/' then "\\/" else [c]
    ensures ReplaceChar([c], Backspace, "\\b") == if c == Backspace then "\\b" else [c]
    ensures ReplaceChar([c], FormFeed, "\\f") == if c == FormFeed then "\\f" else [c]
    ensures ReplaceChar([c], '\n', "\\n") == if c == '\n' then "\\n" else [c]
    ensures ReplaceChar([c], '\r', "\\r") == if c == '\r' then "\\r" else [c]
    ensures ReplaceChar([c], '\t', "\\t") == if c == '\t' then "\\t" else [c]
  {
    ReplaceCharStep([c], '\\', "\\\\");
    ReplaceCharStep([c], '"', "\\\"");
    ReplaceCharStep([c], '/', "\\/");
    ReplaceCharStep([c], Backspace, "\\b");
    ReplaceCharStep([c], FormFeed, "\\f");
    ReplaceCharStep([c], '\n', "\\n");
    ReplaceCharStep([c], '\r', "\\r");
    ReplaceCharStep([c], '\t', "\\t");
  }

  /** `EscapeSpecial([c])` as the eight passes over one character. */
  function PassesOf(c: char): string {
    var s1 := ReplaceChar([c], '\\', "\\\\");
    var s2 := ReplaceChar(s1, '"', "\\\"");
    var s3 := ReplaceChar(s2, '/', "\\/");
    var s4 := ReplaceChar(s3, Backspace, "\\b");
    var s5 := ReplaceChar(s4, FormFeed, "\\f");
    var s6 := ReplaceChar(s5, '\n', "\\n");
    var s7 := ReplaceChar(s6, '\r', "\\r");
    ReplaceChar(s7, '\t', "\\t")
  }

  /** A backslash or a double quote comes out as its escape. */
  lemma EscapeQuotingSingle(c: char)
    requires c == '\\' || c == '"'
    ensures PassesOf(c) == EscapeChar(c)
  {
    PassesOnSingle(c);
    if c == '\\' {
      PassesAbsent("\\\\", 1);
    } else {
      PassesAbsent("\\\"", 2);
    }
  }

  /** A slash or a backspace comes out as its escape. */
  lemma EscapeEarlySingle(c: char)
    requires c == '/' || c == Backspace
    ensures PassesOf(c) == EscapeChar(c)
  {
    PassesOnSingle(c);
    if c == '/' {
      PassesAbsent("\\/", 3);
    } else {
      PassesAbsent("\\b", 4);
    }
  }

  /** Any other character comes out as its escape from a later pass, or unchanged. */
  lemma EscapeLateSingle(c: char)
    requires c != '\\' && c != '"' && c != '/' && c != Backspace
    ensures PassesOf(c) == EscapeChar(c)
  {
    PassesOnSingle(c);
    if c == FormFeed {
      PassesAbsent("\\f", 5);
    } else if c == '\n' {
      PassesAbsent("\\n", 6);
    } else if c == '\r' {
      PassesAbsent("\\r", 7);
    }
  }

  lemma EscapeSpecialSingle(c: char)
    ensures EscapeSpecial([c]) == EscapeChar(c)
  {
    assert EscapeSpecial([c]) == PassesOf(c);
    if c == '\\' || c == '"' {
      EscapeQuotingSingle(c);
    } else if c == '/' || c == Backspace {
      EscapeEarlySingle(c);
    } else {
      EscapeLateSingle(c);
    }
  }

  /** Sequential replacement does not re-escape what an earlier pass produced. */
  lemma {:induction false} EscapeSpecialIsPerCharacter(s: string)
    ensures EscapeSpecial(s) == EscapeEach(s)
  {
    if s != [] {
      EscapeSpecialConcat([s[0]], s[1..]);
      EscapeSpecialSingle(s[0]);
      assert [s[0]] + s[1..] == s;
      EscapeSpecialIsPerCharacter(s[1..]);
    }
  }

  /** Every double quote of an escaped string follows a backslash: no quote is left bare. */
  lemma {:induction false} EscapedQuotesFollowBackslash(s: string)
    ensures forall k :: 0 <= k < |EscapeEach(s)| && EscapeEach(s)[k] == '"' ==> 0 < k && EscapeEach(s)[k - 1] == '\\'
  {
    if s != [] {
      EscapedQuotesFollowBackslash(s[1..]);
      var e, rest := EscapeChar(s[0]), EscapeEach(s[1..]);
      assert EscapeEach(s) == e + rest;
      assert forall k :: 0 <= k < |e| && e[k] == '"' ==> k == 1 && e[0] == '\\';
      forall k | 0 <= k < |e + rest| && (e + rest)[k] == '"'
        ensures 0 < k && (e + rest)[k - 1] == '\\'
      {
        if k >= |e| {
          assert rest[k - |e|] == '"';
          assert 0 < k - |e| && rest[k - |e| - 1] == '\\';
        }
      }
    }
  }

  /** `escapeSpecial(val)`: a non-string is handed back unchanged. */
  function EscapeValue(v: JsValue): (r: JsValue)
    ensures !v.Str? ==> r == v
    ensures v.Str? ==> r.Str? && Backspace !in r.s && FormFeed !in r.s && '\n' !in r.s && '\r' !in r.s && '\t' !in r.s
  {
    if v.Str? then Str(EscapeSpecial(v.s)) else v
  }

  /** `/^[$A-Z_][0-9A-Z_$]*$/i`. */
  predicate IsIdentifier(name: string) {
    && |name| > 0
    && (IsWordChar(name[0]) || name[0] == '$') && !IsDigit(name[0])
    && forall k :: 0 < k < |name| ==> IsWordChar(name[k]) || name[k] == '$'
  }

  /** `quoteName`: a name that is not an identifier is put in single quotes. */
  function QuoteName(name: string): (r: string)
    ensures IsIdentifier(name) ==> r == name
    ensures !IsIdentifier(name) ==> |r| == |name| + 2 && r[0] == '\'' && r[|r| - 1] == '\'' && r[1..|r| - 1] == name
    ensures !IsIdentifier(r) ==> r != name
  {
    if IsIdentifier(name) then name else "'" + name + "'"
  }
}
