/** `composer`: the status icon, the escaped and case-folded event, repository and actor,
    and the workflow link, laid out in the action's fixed message template. */
module Composer {
  import opened Replace
  import opened AsciiCase
  import opened JsValues

  /** The `icons` object: one icon string per job status. */
  const Icons: map<string, string> := map[
    "failure" := "\U{2757}\U{FE0F}\U{2757}\U{FE0F}\U{2757}\U{FE0F}",
    "cancelled" := "\U{2755}\U{2755}\U{2755}",
    "success" := "\U{2705}\U{2705}\U{2705}"
  ]

  /** The `replacers` object. None of its keys is an array index, so `for...in` visits them
      in the order written; the `.` key is compiled as the regular-expression wildcard. */
  const Replacers: seq<Rule> := [
    Rule(KeyPattern('_'), "\\_"),
    Rule(KeyPattern('-'), "\\-"),
    Rule(KeyPattern('.'), "\\.")
  ]

  /** `allReplace(x, replacers)`: the character-by-character escape `EscapeSpec`. */
  function Escape(s: string): (r: string)
    ensures r == EscapeSpec(s)
  {
    ReplacersIsSpec(s);
    AllReplace(s, Replacers)
  }

  /** The first line of the template: icon and bold event. */
  function Headline(status: string, event: string): string {
    PropertyText(Icons, status) + " *" + Upper(Escape(event)) + "*"
  }

  /** The three indented lines of the template that follow the headline. */
  function Details(actor: string, repo: string, workflow: string, link: string): string {
    "\n    was made at " + Lower(Escape(repo))
    + "\n    by " + Lower(Escape(actor))
    + "\n    check here [" + workflow + "](" + link + ")"
  }

  /** `composer(status, event, actor, repo, workflow, link)`: the template filled with the icon,
      the character-by-character escapes of event, repository and actor (the case mapping
      changes nothing), and the workflow and link verbatim. */
  function Compose(status: string, event: string, actor: string, repo: string,
                   workflow: string, link: string): (m: string)
    ensures m ==
      (PropertyText(Icons, status) + " *" + EscapeSpec(event) + "*")
      + ("\n    was made at " + EscapeSpec(repo)
         + "\n    by " + EscapeSpec(actor)
         + "\n    check here [" + workflow + "](" + link + ")")
  {
    EscapeCaseInvariant(event);
    EscapeCaseInvariant(repo);
    EscapeCaseInvariant(actor);
    assert Headline(status, event) == PropertyText(Icons, status) + " *" + EscapeSpec(event) + "*";
    assert Details(actor, repo, workflow, link) ==
      "\n    was made at " + EscapeSpec(repo)
      + "\n    by " + EscapeSpec(actor)
      + "\n    check here [" + workflow + "](" + link + ")";
    Headline(status, event) + Details(actor, repo, workflow, link)
  }

  // ---------------------------------------------------------------------------
  // An independent, character-by-character description of the escape

  /** How many `\.` pairs one character becomes: `_` and `-` first become two characters,
      every other character is one `.` match per UTF-16 code unit. */
  function Weight(c: char): nat {
    if c == '_' || c == '-' then 2 else CodeUnits(c)
  }

  /** What the three passes make of one character: a line terminator survives,
      anything else turns into `Weight(c)` copies of `\.`. */
  function EscapedChar(c: char): string {
    if IsLineTerminator(c) then [c] else Repeat("\\.", Weight(c))
  }

  function EscapeSpec(s: string): string {
    if s == [] then [] else EscapedChar(s[0]) + EscapeSpec(s[1..])
  }

  /** The total number of `\.` pairs the characters of `s` turn into. */
  function TotalWeight(s: string): nat {
    if s == [] then 0 else (if IsLineTerminator(s[0]) then 0 else Weight(s[0])) + TotalWeight(s[1..])
  }

  function Count(s: string, c: char): nat {
    if s == [] then 0 else (if s[0] == c then 1 else 0) + Count(s[1..], c)
  }

  function Utf16Length(s: string): nat {
    if s == [] then 0 else CodeUnits(s[0]) + Utf16Length(s[1..])
  }

  predicate NoLineTerminator(s: string) {
    forall i :: 0 <= i < |s| ==> !IsLineTerminator(s[i])
  }

  // ---------------------------------------------------------------------------
  // Properties of the escape

  /** The three passes, applied to a single character. */
  lemma {:induction false} ReplacersOnChar(c: char)
    ensures AllReplace([c], Replacers) == EscapedChar(c)
  {
    var r0, r1, r2 := Replacers[0], Replacers[1], Replacers[2];
    assert Replacers[1..][1..] == [r2];
    var s1 := ReplaceAll([c], r0);
    ReplaceAllOne(c, r0);
    var s2 := ReplaceAll(s1, r1);
    var s3 := ReplaceAll(s2, r2);
    assert AllReplace([c], Replacers) == s3 by {
      assert AllReplace([c], Replacers) == AllReplace(s1, Replacers[1..]);
      assert AllReplace(s1, Replacers[1..]) == AllReplace(s2, [r2]);
      assert AllReplace(s2, [r2]) == AllReplace(s3, []);
    }
    if c == '_' || c == '-' {
      assert s1 == (if c == '_' then "\\_" else [c]);
      if c == '_' {
        ReplaceAllTwo('\\', '_', r1);
        assert s2 == "\\_";
        ReplaceAllTwo('\\', '_', r2);
      } else {
        ReplaceAllOne(c, r1);
        assert s2 == "\\-";
        ReplaceAllTwo('\\', '-', r2);
      }
      assert s3 == "\\." + "\\.";
      assert Repeat("\\.", 2) == "\\." + "\\.";
    } else {
      assert s1 == [c];
      ReplaceAllOne(c, r1);
      assert s2 == [c];
      ReplaceAllOne(c, r2);
    }
  }

  /** `allReplace(s, replacers)` is the character-by-character escape. */
  lemma {:induction false} ReplacersIsSpec(s: string)
    ensures AllReplace(s, Replacers) == EscapeSpec(s)
  {
    if s == [] {
    } else {
      assert s == [s[0]] + s[1..];
      AllReplaceAppend([s[0]], s[1..], Replacers);
      ReplacersOnChar(s[0]);
      ReplacersIsSpec(s[1..]);
    }
  }

  lemma {:induction false} RepeatAdd(x: string, a: nat, b: nat)
    ensures Repeat(x, a) + Repeat(x, b) == Repeat(x, a + b)
  {
    if a > 0 {
      RepeatAdd(x, a - 1, b);
      calc {
        Repeat(x, a) + Repeat(x, b);
        (x + Repeat(x, a - 1)) + Repeat(x, b);
        x + (Repeat(x, a - 1) + Repeat(x, b));
        x + Repeat(x, a - 1 + b);
        Repeat(x, a + b);
      }
    }
  }

  /** Without line terminators the escape is nothing but `\.` pairs, one per unit of weight. */
  lemma {:induction false} EscapeIsPairs(s: string)
    requires NoLineTerminator(s)
    ensures Escape(s) == Repeat("\\.", TotalWeight(s))
  {
    EscapeSpecIsPairs(s);
  }

  lemma {:induction false} EscapeSpecIsPairs(s: string)
    requires NoLineTerminator(s)
    ensures EscapeSpec(s) == Repeat("\\.", TotalWeight(s))
  {
    if s != [] {
      assert !IsLineTerminator(s[0]);
      EscapeSpecIsPairs(s[1..]);
      RepeatAdd("\\.", Weight(s[0]), TotalWeight(s[1..]));
    }
  }

  lemma {:induction false} TotalWeightCounts(s: string)
    requires NoLineTerminator(s)
    ensures TotalWeight(s) == Utf16Length(s) + Count(s, '_') + Count(s, '-')
  {
    if s != [] {
      assert !IsLineTerminator(s[0]);
      TotalWeightCounts(s[1..]);
    }
  }

  /** For a string without line terminators, the escape is twice as long as the string's
      UTF-16 length plus its underscores and hyphens. */
  lemma EscapeLength(s: string)
    requires NoLineTerminator(s)
    ensures |Escape(s)| == 2 * (Utf16Length(s) + Count(s, '_') + Count(s, '-'))
  {
    EscapeIsPairs(s);
    TotalWeightCounts(s);
  }

  /** The escape forgets the text: two line-terminator-free strings escape alike exactly
      when they weigh the same, so different event names of equal shape give equal messages. */
  lemma EscapeEqualIff(s: string, t: string)
    requires NoLineTerminator(s) && NoLineTerminator(t)
    ensures Escape(s) == Escape(t) <==> TotalWeight(s) == TotalWeight(t)
  {
    EscapeIsPairs(s);
    EscapeIsPairs(t);
  }

  /** Only backslashes, dots and line terminators survive the escape. */
  lemma {:induction false} EscapeAlphabet(s: string)
    ensures forall i :: 0 <= i < |Escape(s)| ==>
      Escape(s)[i] == '\\' || Escape(s)[i] == '.' || IsLineTerminator(Escape(s)[i])
  {
    EscapeSpecAlphabet(s);
  }

  lemma {:induction false} EscapeSpecAlphabet(s: string)
    ensures forall i :: 0 <= i < |EscapeSpec(s)| ==>
      EscapeSpec(s)[i] == '\\' || EscapeSpec(s)[i] == '.' || IsLineTerminator(EscapeSpec(s)[i])
  {
    if s != [] {
      EscapeSpecAlphabet(s[1..]);
      var head := EscapedChar(s[0]);
      assert forall i :: 0 <= i < |head| ==> head[i] == '\\' || head[i] == '.' || IsLineTerminator(head[i]);
    }
  }

  /** Case-folding the escape changes nothing, so the `toUpperCase` / `toLowerCase` calls
      of `composer` have no effect. */
  lemma EscapeCaseInvariant(s: string)
    ensures Upper(Escape(s)) == Escape(s)
    ensures Lower(Escape(s)) == Escape(s)
  {
    EscapeAlphabet(s);
    UpperFixedIff(Escape(s));
    LowerFixedIff(Escape(s));
  }

  // ---------------------------------------------------------------------------
  // Properties of the composed message

  /** The icon that opens the message for each status. */
  lemma ComposeIcon(status: string, event: string, actor: string, repo: string,
                    workflow: string, link: string)
    ensures var m := Compose(status, event, actor, repo, workflow, link);
      && (status == "failure" ==> Icons["failure"] + " *" <= m)
      && (status == "cancelled" ==> Icons["cancelled"] + " *" <= m)
      && (status == "success" ==> Icons["success"] + " *" <= m)
      && (status !in Icons && !IsObjectPrototypeName(status) ==> "undefined *" <= m)
  {
    var opening := PropertyText(Icons, status) + " *";
    var h := opening + EscapeSpec(event) + "*";
    var m := Compose(status, event, actor, repo, workflow, link);
    assert opening <= opening + EscapeSpec(event);
    assert opening <= h;
    assert h <= m;
  }
}
