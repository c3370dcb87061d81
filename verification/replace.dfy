/** `allReplace(str, obj)`: for every key of `obj`, in enumeration order, replace every
    match of `new RegExp(key, 'g')` with `obj[key]`. The patterns modelled are the
    one-character regular expressions: a literal character, or `.`. */
module Replace {

  /** A one-character regular expression. `Literal(c)` matches the character `c`;
      `AnyChar` is `.`, which matches any UTF-16 code unit except a line terminator. */
  datatype Pattern = Literal(c: char) | AnyChar

  /** One key/value pair of the replacement object, as a pattern and its literal replacement. */
  datatype Rule = Rule(pattern: Pattern, replacement: string)

  /** Characters with a meaning of their own in regular-expression syntax. */
  predicate IsSyntaxChar(c: char) {
    c in "^$\\.*+?()[]{}|"
  }

  /** The pattern that `new RegExp(key)` compiles to for a one-character key. */
  function KeyPattern(key: char): (p: Pattern)
    requires key == '.' || !IsSyntaxChar(key)
    ensures p == AnyChar <==> key == '.'
    ensures p.Literal? ==> p.c == key
  {
    if key == '.' then AnyChar else Literal(key)
  }

  /** The ECMAScript line terminators, which `.` does not match. */
  predicate IsLineTerminator(c: char) {
    c == '\n' || c == '\r' || c == '\U{2028}' || c == '\U{2029}'
  }

  /** The number of UTF-16 code units that encode `c`. */
  function CodeUnits(c: char): (n: nat)
    ensures n == 1 || n == 2
    ensures n == 2 <==> c as int >= 0x1_0000
  {
    if c as int < 0x1_0000 then 1 else 2
  }

  /** The number of matches of `p` inside the single character `c`: `.` matches each
      code unit of `c` separately, so a character outside the Basic Multilingual Plane is
      matched twice. */
  function MatchesIn(p: Pattern, c: char): (n: nat)
    ensures n == 0 <==> (p.Literal? && c != p.c) || (p.AnyChar? && IsLineTerminator(c))
    ensures p.Literal? && c == p.c ==> n == 1
    ensures p.AnyChar? && !IsLineTerminator(c) ==> n == CodeUnits(c)
  {
    match p
    case Literal(d) => if c == d then 1 else 0
    case AnyChar => if IsLineTerminator(c) then 0 else CodeUnits(c)
  }

  function Repeat(s: string, n: nat): (r: string)
    ensures |r| == n * |s|
    ensures forall i :: 0 <= i < |r| ==> r[i] in s
  {
    if n == 0 then [] else s + Repeat(s, n - 1)
  }

  /** The global replacement applied to one character of the subject string. */
  function ReplaceChar(c: char, rule: Rule): (r: string)
    ensures MatchesIn(rule.pattern, c) == 0 ==> r == [c]
    ensures MatchesIn(rule.pattern, c) > 0 ==> r == Repeat(rule.replacement, MatchesIn(rule.pattern, c))
  {
    var n := MatchesIn(rule.pattern, c);
    if n == 0 then [c] else Repeat(rule.replacement, n)
  }

  /** No character of `s` holds a match of `p`. */
  predicate NoMatchIn(p: Pattern, s: string) {
    s == [] || (MatchesIn(p, s[0]) == 0 && NoMatchIn(p, s[1..]))
  }

  lemma {:induction false} NoMatchInAppend(p: Pattern, a: string, b: string)
    ensures NoMatchIn(p, a + b) <==> NoMatchIn(p, a) && NoMatchIn(p, b)
  {
    if a != [] {
      assert (a + b)[0] == a[0] && (a + b)[1..] == a[1..] + b;
      NoMatchInAppend(p, a[1..], b);
    } else {
      assert a + b == b;
    }
  }

  lemma {:induction false} NoMatchInRepeat(p: Pattern, s: string, n: nat)
    ensures NoMatchIn(p, s) ==> NoMatchIn(p, Repeat(s, n))
  {
    if n > 0 {
      NoMatchInRepeat(p, s, n - 1);
      NoMatchInAppend(p, s, Repeat(s, n - 1));
    }
  }

  /** `s.replace(new RegExp(key, 'g'), value)`: every match is replaced, left to right,
      and the replacement text is never rescanned. A pattern absent from `s` leaves it
      unchanged, and when the replacement holds no match, the result holds none either:
      every occurrence was replaced. */
  function ReplaceAll(s: string, rule: Rule): (r: string)
    ensures NoMatchIn(rule.pattern, s) ==> r == s
    ensures NoMatchIn(rule.pattern, rule.replacement) ==> NoMatchIn(rule.pattern, r)
  {
    if s == [] then []
    else
      var head := ReplaceChar(s[0], rule);
      var rest := ReplaceAll(s[1..], rule);
      NoMatchInRepeat(rule.pattern, rule.replacement, MatchesIn(rule.pattern, s[0]));
      NoMatchInAppend(rule.pattern, head, rest);
      head + rest
  }

  /** `allReplace(s, obj)`, with the rules in the order the `for...in` loop visits the keys.
      The keys apply one after another: the last key acts on the output of all the earlier ones. */
  function AllReplace(s: string, rules: seq<Rule>): (r: string)
    ensures rules == [] ==> r == s
    ensures rules != [] ==> r == ReplaceAll(AllReplace(s, rules[..|rules| - 1]), rules[|rules| - 1])
    decreases |rules|
  {
    if rules == [] then s
    else
      var r := AllReplace(ReplaceAll(s, rules[0]), rules[1..]);
      assert |rules| > 1 ==> (rules[..|rules| - 1][0] == rules[0] &&
                              rules[..|rules| - 1][1..] == rules[1..][..|rules[1..]| - 1]);
      assert |rules| == 1 ==> rules[..|rules| - 1] == [];
      r
  }

  /** A global replacement works character by character, so it distributes over concatenation. */
  lemma {:induction false} ReplaceAllAppend(a: string, b: string, rule: Rule)
    ensures ReplaceAll(a + b, rule) == ReplaceAll(a, rule) + ReplaceAll(b, rule)
  {
    if a == [] {
      assert a + b == b;
    } else {
      assert (a + b)[0] == a[0];
      assert (a + b)[1..] == a[1..] + b;
      ReplaceAllAppend(a[1..], b, rule);
    }
  }

  lemma ReplaceAllOne(c: char, rule: Rule)
    ensures ReplaceAll([c], rule) == ReplaceChar(c, rule)
  {
  }

  lemma ReplaceAllTwo(c: char, d: char, rule: Rule)
    ensures ReplaceAll([c, d], rule) == ReplaceChar(c, rule) + ReplaceChar(d, rule)
  {
    assert [c, d] == [c] + [d];
    ReplaceAllAppend([c], [d], rule);
    ReplaceAllOne(c, rule);
    ReplaceAllOne(d, rule);
  }

  /** Like each of its passes, the whole replacement distributes over concatenation. */
  lemma {:induction false} AllReplaceAppend(a: string, b: string, rules: seq<Rule>)
    ensures AllReplace(a + b, rules) == AllReplace(a, rules) + AllReplace(b, rules)
    decreases |rules|
  {
    if rules != [] {
      ReplaceAllAppend(a, b, rules[0]);
      AllReplaceAppend(ReplaceAll(a, rules[0]), ReplaceAll(b, rules[0]), rules[1..]);
    }
  }

  /** Rules whose patterns occur nowhere in `s` leave `s` unchanged. */
  lemma {:induction false} AllReplaceNoMatch(s: string, rules: seq<Rule>)
    requires forall k :: 0 <= k < |rules| ==> NoMatchIn(rules[k].pattern, s)
    ensures AllReplace(s, rules) == s
    decreases |rules|
  {
    if rules != [] {
      assert NoMatchIn(rules[0].pattern, s);
      AllReplaceNoMatch(s, rules[1..]);
    }
  }

  /** `str.replace(re, value)` with a global `re`: scan the subject once, copying the text
      between matches and emitting `value` for each match. */
  method ReplaceGlobal(str: string, rule: Rule) returns (out: string)
    ensures out == ReplaceAll(str, rule)
  {
    out := "";
    var i := 0;
    while i < |str|
      invariant 0 <= i <= |str|
      invariant out == ReplaceAll(str[..i], rule)
    {
      var n := MatchesIn(rule.pattern, str[i]);
      var piece := [str[i]];
      if n > 0 {
        piece := Repeat(rule.replacement, n);
      }
      assert str[..i + 1] == str[..i] + [str[i]];
      ReplaceAllAppend(str[..i], [str[i]], rule);
      assert ReplaceAll([str[i]], rule) == ReplaceChar(str[i], rule) + ReplaceAll([], rule);
      out := out + piece;
      i := i + 1;
    }
    assert str[..i] == str;
  }

  /** The loop of `allReplace`: each key's global replacement runs on the output of the previous one. */
  method AllReplaceLoop(str: string, rules: seq<Rule>) returns (out: string)
    ensures out == AllReplace(str, rules)
  {
    out := str;
    var k := 0;
    while k < |rules|
      invariant 0 <= k <= |rules|
      invariant out == AllReplace(str, rules[..k])
    {
      assert rules[..k + 1][..k] == rules[..k];
      out := ReplaceGlobal(out, rules[k]);
      k := k + 1;
    }
    assert rules[..k] == rules;
  }
}
