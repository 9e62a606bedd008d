/** escapeLatex (src/utils/latex.ts:6-18): ten global one-character
    replacements applied in a fixed order, and the per-character table that
    the chain amounts to. */
module Escape {
  import opened Text

  /** What one character of the input becomes under one replacement. */
  function Piece(c: char, target: char, replacement: string): string
  {
    if c == target then replacement else [c]
  }

  function Pieces(s: string, target: char, replacement: string): seq<string>
  {
    seq(|s|, i requires 0 <= i < |s| => Piece(s[i], target, replacement))
  }

  /** `s` with every occurrence of `target` replaced by `replacement`: the
      effect of s.replace(/t/g, replacement) for a one-character pattern and
      a replacement text that holds no `$` substitution pattern. Each
      character is rewritten on its own and the pieces are concatenated in
      order. */
  function ReplaceAll(s: string, target: char, replacement: string): string
  {
    Flatten(Pieces(s, target, replacement))
  }

  lemma ReplaceAllEmpty(target: char, replacement: string)
    ensures ReplaceAll([], target, replacement) == []
  {
    assert Pieces([], target, replacement) == [];
  }

  lemma ReplaceAllSingle(c: char, target: char, replacement: string)
    ensures ReplaceAll([c], target, replacement) == Piece(c, target, replacement)
  {
    var xs := Pieces([c], target, replacement);
    assert xs == [Piece(c, target, replacement)];
    assert Flatten(xs) == xs[0] + Flatten(xs[1..]);
    assert xs[1..] == [];
  }

  /** Replacing distributes over concatenation. */
  lemma ReplaceAllAppend(a: string, b: string, target: char, replacement: string)
    ensures ReplaceAll(a + b, target, replacement) == ReplaceAll(a, target, replacement) + ReplaceAll(b, target, replacement)
  {
    assert Pieces(a + b, target, replacement) == Pieces(a, target, replacement) + Pieces(b, target, replacement);
    FlattenAppend(Pieces(a, target, replacement), Pieces(b, target, replacement));
  }

  /** Text without the target comes back unchanged. */
  lemma {:induction false} ReplaceAllAbsent(s: string, target: char, replacement: string)
    requires target !in s
    ensures ReplaceAll(s, target, replacement) == s
  {
    if s == [] {
      ReplaceAllEmpty(target, replacement);
    } else {
      assert s == [s[0]] + s[1..];
      ReplaceAllAppend([s[0]], s[1..], target, replacement);
      ReplaceAllSingle(s[0], target, replacement);
      ReplaceAllAbsent(s[1..], target, replacement);
    }
  }

  /** The number of replacement steps in the chain. */
  const RuleCount := 10

  /** The character the k-th step of src/utils/latex.ts:8-17 rewrites. */
  function Target(k: nat): char
    requires k < RuleCount
  {
    if k == 0 then '\\' else if k == 1 then '&' else if k == 2 then '%' else if k == 3 then '$'
    else if k == 4 then '#' else if k == 5 then '_' else if k == 6 then '{' else if k == 7 then '}'
    else if k == 8 then '~' else '^'
  }

  /** The text the k-th step writes in its place. */
  function Replacement(k: nat): string
    requires k < RuleCount
  {
    if k == 0 then @"\textbackslash{}" else if k == 1 then @"\&" else if k == 2 then @"\%"
    else if k == 3 then @"\$" else if k == 4 then @"\#" else if k == 5 then @"\_"
    else if k == 6 then @"\{" else if k == 7 then @"\}"
    else if k == 8 then @"\textasciitilde{}" else @"\textasciicircum{}"
  }

  /** Steps k, k+1, ... of the chain, each applied to the whole output of
      the one before. */
  function ApplyFrom(s: string, k: nat): string
    requires k <= RuleCount
    decreases RuleCount - k
  {
    if k == RuleCount then s else ApplyFrom(ReplaceAll(s, Target(k), Replacement(k)), k + 1)
  }

  /** escapeLatex: the whole chain, in source order. */
  function EscapeLatex(s: string): string
  {
    ApplyFrom(s, 0)
  }

  /** The index of the step that rewrites `c`, or RuleCount when none does. */
  function RuleOf(c: char): (k: nat)
    ensures k <= RuleCount
    ensures k < RuleCount ==> Target(k) == c
    ensures forall i :: 0 <= i < RuleCount && Target(i) == c ==> i == k
  {
    if c == '\\' then 0 else if c == '&' then 1 else if c == '%' then 2 else if c == '$' then 3
    else if c == '#' then 4 else if c == '_' then 5 else if c == '{' then 6 else if c == '}' then 7
    else if c == '~' then 8 else if c == '^' then 9 else RuleCount
  }

  /** No character of `s` is rewritten by step `from` or any later step. */
  predicate Untouched(s: string, from: nat)
  {
    forall i :: 0 <= i < |s| ==> RuleOf(s[i]) < from || RuleOf(s[i]) == RuleCount
  }

  lemma {:induction false} ApplyUntouched(s: string, k: nat)
    requires k <= RuleCount && Untouched(s, k)
    ensures ApplyFrom(s, k) == s
    decreases RuleCount - k
  {
    if k < RuleCount {
      var t, r := Target(k), Replacement(k);
      assert t !in s;
      ReplaceAllAbsent(s, t, r);
      ApplyUntouched(s, k + 1);
    }
  }

  /** A single character passes unchanged through the steps before its own
      and is then replaced. */
  lemma {:induction false} FirstHit(c: char, from: nat, k: nat)
    requires from <= k < RuleCount && Target(k) == c
    requires forall i :: from <= i < k ==> Target(i) != c
    ensures ApplyFrom([c], from) == ApplyFrom(Replacement(k), k + 1)
    decreases k - from
  {
    var t, r := Target(from), Replacement(from);
    ReplaceAllSingle(c, t, r);
    assert ApplyFrom([c], from) == ApplyFrom(ReplaceAll([c], t, r), from + 1);
    if from < k {
      assert t != c;
      FirstHit(c, from + 1, k);
    }
  }

  lemma {:induction false} ApplyFromAppend(a: string, b: string, k: nat)
    requires k <= RuleCount
    ensures ApplyFrom(a + b, k) == ApplyFrom(a, k) + ApplyFrom(b, k)
    decreases RuleCount - k
  {
    if k < RuleCount {
      var t, r := Target(k), Replacement(k);
      ReplaceAllAppend(a, b, t, r);
      ApplyFromAppend(ReplaceAll(a, t, r), ReplaceAll(b, t, r), k + 1);
    }
  }

  /** The ten characters the escape rewrites. */
  predicate IsSpecial(c: char)
  {
    c == '\\' || c == '&' || c == '%' || c == '$' || c == '#' ||
    c == '_' || c == '{' || c == '}' || c == '~' || c == '^'
  }

  /** What the chain turns one character into. The braces that the
      backslash step writes are themselves escaped by the later brace
      steps; those of the tilde and caret steps, which run last, are not. */
  function EscapeChar(c: char): string
  {
    if c == '\\' then @"\textbackslash\{\}"
    else if c == '~' then @"\textasciitilde{}"
    else if c == '^' then @"\textasciicircum{}"
    else if IsSpecial(c) then ['\\', c]
    else [c]
  }

  /** The per-character reference definition: each character rewritten on
      its own, results concatenated in order. */
  function EscapeEach(s: string): string
  {
    if s == [] then [] else EscapeChar(s[0]) + EscapeEach(s[1..])
  }

  /** The escape distributes over concatenation, because each of its ten
      steps does. */
  lemma EscapeLatexAppend(a: string, b: string)
    ensures EscapeLatex(a + b) == EscapeLatex(a) + EscapeLatex(b)
  {
    ApplyFromAppend(a, b, 0);
  }

  /** A character rewritten by step k whose replacement no later step
      touches. */
  lemma EscapeViaRule(c: char, k: nat)
    requires 0 < k < RuleCount && RuleOf(c) == k
    requires Untouched(Replacement(k), k + 1)
    ensures EscapeLatex([c]) == Replacement(k)
  {
    FirstHit(c, 0, k);
    ApplyUntouched(Replacement(k), k + 1);
  }

  lemma OpenBraceFromOne(c: char)
    requires c == '{'
    ensures ApplyFrom([c], 1) == ['\\', c]
  {
    FirstHit(c, 1, 6);
    ApplyUntouched(['\\', c], 7);
  }

  lemma CloseBraceFromOne(c: char)
    requires c == '}'
    ensures ApplyFrom([c], 1) == ['\\', c]
  {
    FirstHit(c, 1, 7);
    ApplyUntouched(['\\', c], 8);
  }

  /** The name of the backslash macro holds no character a later step
      rewrites. */
  lemma BackslashHead(h: string)
    requires h == @"\textbackslash"
    ensures Untouched(h, 1)
  {
  }

  /** After the backslash step, text ending in a pair of braces has its
      braces escaped and nothing else changed, provided the text before
      them holds no other special character. */
  lemma OpenAfterFirst(h: string)
    requires Untouched(h, 1)
    ensures ApplyFrom(h + ['{'], 1) == h + ['\\', '{']
  {
    ApplyFromAppend(h, ['{'], 1);
    ApplyUntouched(h, 1);
    OpenBraceFromOne('{');
  }

  lemma BracedAfterFirst(h: string)
    requires Untouched(h, 1)
    ensures ApplyFrom(h + ['{', '}'], 1) == h + ['\\', '{', '\\', '}']
  {
    var a := h + ['{'];
    assert h + ['{', '}'] == a + ['}'];
    assert h + ['\\', '{', '\\', '}'] == (h + ['\\', '{']) + ['\\', '}'];
    ApplyFromAppend(a, ['}'], 1);
    OpenAfterFirst(h);
    CloseBraceFromOne('}');
  }

  lemma BackslashText(h: string)
    requires h == @"\textbackslash"
    ensures Replacement(0) == h + ['{', '}']
    ensures EscapeChar('\\') == h + ['\\', '{', '\\', '}']
  {
  }

  /** The ordering quirk: an input backslash becomes the macro followed by
      escaped braces, because the brace steps run after the backslash step:
      from the first step on, a lone backslash comes out as the replacement
      text with each of its two braces preceded by a backslash. */
  lemma BackslashChain(c: char, h: string, k: nat)
    requires c == '\\' && k == 0
    requires Untouched(h, 1) && Replacement(k) == h + ['{', '}']
    ensures ApplyFrom([c], k) == h + ['\\', '{', '\\', '}']
  {
    FirstHit(c, k, k);
    BracedAfterFirst(h);
  }

  lemma EscapeBackslash(c: char)
    requires c == '\\'
    ensures EscapeLatex([c]) == EscapeChar(c)
  {
    var h := @"\textbackslash";
    BackslashHead(h);
    BackslashText(h);
    BackslashChain(c, h, 0);
  }

  /** The chain applied to a single character gives the table entry. */
  lemma EscapeLatexChar(c: char)
    ensures EscapeLatex([c]) == EscapeChar(c)
  {
    if c == '\\' {
      EscapeBackslash(c);
    } else if c == '&' {
      EscapeViaRule(c, 1);
    } else if c == '%' {
      EscapeViaRule(c, 2);
    } else if c == '$' {
      EscapeViaRule(c, 3);
    } else if c == '#' {
      EscapeViaRule(c, 4);
    } else if c == '_' {
      EscapeViaRule(c, 5);
    } else if c == '{' {
      EscapeViaRule(c, 6);
    } else if c == '}' {
      EscapeViaRule(c, 7);
    } else if c == '~' {
      EscapeViaRule(c, 8);
    } else if c == '^' {
      EscapeViaRule(c, 9);
    } else {
      ApplyUntouched([c], 0);
    }
  }

  lemma {:induction false} EscapeLatexIsPerCharacter(s: string)
    ensures EscapeLatex(s) == EscapeEach(s)
  {
    if s != [] {
      assert s == [s[0]] + s[1..];
      EscapeLatexAppend([s[0]], s[1..]);
      EscapeLatexChar(s[0]);
      EscapeLatexIsPerCharacter(s[1..]);
    }
  }

  /** A string without any of the ten characters is returned unchanged,
      and only such a string: any special character makes the output
      strictly longer. */
  lemma {:induction false} EscapeLatexUnchanged(s: string)
    ensures EscapeLatex(s) == s <==> forall i :: 0 <= i < |s| ==> !IsSpecial(s[i])
    ensures |EscapeLatex(s)| >= |s|
  {
    EscapeLatexIsPerCharacter(s);
    EscapeEachLength(s);
  }

  lemma {:induction false} EscapeEachLength(s: string)
    ensures |EscapeEach(s)| >= |s|
    ensures EscapeEach(s) == s <==> forall i :: 0 <= i < |s| ==> !IsSpecial(s[i])
    ensures |EscapeEach(s)| == |s| <==> forall i :: 0 <= i < |s| ==> !IsSpecial(s[i])
  {
    if s != [] {
      EscapeEachLength(s[1..]);
      assert forall i :: 1 <= i < |s| ==> s[i] == s[1..][i - 1];
      if EscapeEach(s) == s {
        assert |EscapeEach(s)| == |s|;
      }
      if forall i :: 0 <= i < |s| ==> !IsSpecial(s[i]) {
        assert !IsSpecial(s[0]);
        assert forall i :: 0 <= i < |s[1..]| ==> !IsSpecial(s[1..][i]);
        assert s == [s[0]] + s[1..];
      }
    }
  }

  /** Characters that must always carry a backslash in front of them. */
  predicate IsControl(c: char) {
    c == '&' || c == '%' || c == '$' || c == '#' || c == '_'
  }

  /** Every `&`, `%`, `$`, `#` and `_` in `s` has a backslash right before it. */
  predicate ControlsEscaped(s: string) {
    forall i :: 0 <= i < |s| && IsControl(s[i]) ==> i > 0 && s[i - 1] == '\\'
  }

  /** A macro call written by the escape: a backslash, a `t`, and no
      control character, line feed, tilde or caret anywhere. */
  predicate MacroText(p: string) {
    |p| >= 2 && p[0] == '\\' && p[1] == 't' &&
    forall i :: 0 <= i < |p| ==> !IsControl(p[i]) && p[i] != '\n' && p[i] != '~' && p[i] != '^'
  }

  lemma BackslashMacro(p: string)
    requires p == @"\textbackslash\{\}"
    ensures MacroText(p)
  {
  }

  lemma TildeMacro(p: string)
    requires p == @"\textasciitilde{}"
    ensures MacroText(p)
  {
  }

  lemma CaretMacro(p: string)
    requires p == @"\textasciicircum{}"
    ensures MacroText(p)
  {
  }

  /** What the table entry of a character looks like: the character itself
      when it is not special, otherwise a backslash followed by `t` or by
      the character; either way its controls are escaped, it starts with no
      control, it holds no tilde and no caret, and it holds a line feed
      exactly when the character is one. */
  lemma EscapeCharShape(c: char)
    ensures !IsSpecial(c) ==> EscapeChar(c) == [c]
    ensures IsSpecial(c) ==> |EscapeChar(c)| >= 2 && EscapeChar(c)[0] == '\\' && EscapeChar(c)[1] in @"t&%$#_{}"
    ensures ControlsEscaped(EscapeChar(c)) && !IsControl(EscapeChar(c)[0])
    ensures '~' !in EscapeChar(c) && '^' !in EscapeChar(c)
    ensures ('\n' in EscapeChar(c)) == (c == '\n')
  {
    var p := EscapeChar(c);
    if c == '\\' {
      BackslashMacro(p);
    } else if c == '~' {
      TildeMacro(p);
    } else if c == '^' {
      CaretMacro(p);
    } else if IsSpecial(c) {
      assert p == ['\\', c];
    }
  }

  /** In escaped output every `&`, `%`, `$`, `#` and `_` is immediately
      preceded by a backslash. */
  lemma {:induction false} EscapeLatexControlsEscaped(s: string)
    ensures ControlsEscaped(EscapeLatex(s))
  {
    EscapeLatexIsPerCharacter(s);
    EscapeEachControls(s);
  }

  lemma {:induction false} EscapeEachControls(s: string)
    ensures ControlsEscaped(EscapeEach(s))
    ensures EscapeEach(s) != [] ==> !IsControl(EscapeEach(s)[0])
  {
    if s != [] {
      EscapeEachControls(s[1..]);
      EscapeCharShape(s[0]);
      var p, r := EscapeChar(s[0]), EscapeEach(s[1..]);
      forall i | 0 <= i < |p + r| && IsControl((p + r)[i])
        ensures i > 0 && (p + r)[i - 1] == '\\'
      {
        if i < |p| {
          assert (p + r)[i] == p[i];
        } else {
          assert (p + r)[i] == r[i - |p|];
        }
      }
    }
  }

  /** No tilde and no caret survives the escape. */
  lemma {:induction false} EscapeLatexNoTildeCaret(s: string)
    ensures '~' !in EscapeLatex(s) && '^' !in EscapeLatex(s)
  {
    EscapeLatexIsPerCharacter(s);
    EscapeEachNoTildeCaret(s);
  }

  lemma {:induction false} EscapeEachNoTildeCaret(s: string)
    ensures '~' !in EscapeEach(s) && '^' !in EscapeEach(s)
  {
    if s != [] {
      EscapeCharShape(s[0]);
      EscapeEachNoTildeCaret(s[1..]);
      var p, r := EscapeChar(s[0]), EscapeEach(s[1..]);
      assert forall x :: x in p + r <==> x in p || x in r;
    }
  }

  /** A backslash at the head of escaped text always begins one of the
      escape sequences, so it is followed by `t` or by an escaped
      character. */
  lemma {:induction false} EscapeLatexHead(s: string)
    ensures EscapeLatex(s) != [] && EscapeLatex(s)[0] == '\\' ==>
      |EscapeLatex(s)| >= 2 && EscapeLatex(s)[1] in @"t&%$#_{}"
  {
    EscapeLatexIsPerCharacter(s);
    if s != [] {
      EscapeCharShape(s[0]);
    }
  }

  /** The escape neither adds nor removes line feeds. */
  lemma {:induction false} EscapeLatexNewlines(s: string)
    ensures ('\n' in EscapeLatex(s)) == ('\n' in s)
  {
    EscapeLatexIsPerCharacter(s);
    EscapeEachNewlines(s);
  }

  lemma {:induction false} EscapeEachNewlines(s: string)
    ensures ('\n' in EscapeEach(s)) == ('\n' in s)
  {
    if s != [] {
      var p, r := EscapeChar(s[0]), EscapeEach(s[1..]);
      EscapeCharNewline(s[0]);
      EscapeEachNewlines(s[1..]);
      InAppend('\n', p, r);
      assert s == [s[0]] + s[1..];
      InAppend('\n', [s[0]], s[1..]);
    }
  }

  lemma EscapeCharNewline(c: char)
    ensures ('\n' in EscapeChar(c)) == (c == '\n')
  {
    EscapeCharShape(c);
  }

  lemma InAppend<T>(x: T, a: seq<T>, b: seq<T>)
    ensures x in a + b <==> x in a || x in b
  {
  }

  /** Escaping twice is not escaping once: an ampersand escaped once is
      `\&`, escaped again it becomes the backslash macro followed by `\&`. */
  lemma EscapedTwice(amp: char)
    requires amp == '&'
    ensures EscapeLatex([amp]) == @"\&"
    ensures EscapeLatex(EscapeLatex([amp])) == @"\textbackslash\{\}" + @"\&"
  {
    EscapeLatexChar(amp);
    assert EscapeLatex([amp]) == ['\\'] + [amp];
    EscapeLatexAppend(['\\'], [amp]);
    EscapeLatexChar('\\');
  }
}
