/** sanitizeFilename (src/utils/latex.ts:329-331; src/utils/pdf.ts:4-6
    holds the same function): every run of characters outside the class
    [a-z0-9À-ɏ\s._-], matched case-insensitively, becomes one
    underscore, the result is trimmed, and an empty result becomes
    "resume". */
module Filename {
  import opened Text

  /** The class as written: ASCII letters of either case, digits, the
      range U+00C0 to U+024F, whitespace, `.`, `_` and `-`. */
  predicate BaseAllowed(c: char) {
    ('a' <= c <= 'z') || ('A' <= c <= 'Z') || ('0' <= c <= '9') ||
    ('\U{C0}' <= c <= '\U{24F}') || IsSpace(c) || c == '.' || c == '_' || c == '-'
  }

  /** The characters outside U+00C0 to U+024F that the case-insensitive
      match lets through as well: each has the same upper case as a letter
      of that range (U+0253 and U+0181, say), or is the upper case of one
      (U+2C7E is the upper case of U+023F). */
  predicate CaseFoldExtra(c: char) {
    c in {'\U{253}', '\U{254}', '\U{256}', '\U{257}', '\U{259}', '\U{25B}', '\U{260}', '\U{263}',
          '\U{268}', '\U{269}', '\U{26F}', '\U{272}', '\U{275}', '\U{280}', '\U{283}', '\U{288}',
          '\U{289}', '\U{28A}', '\U{28B}', '\U{28C}', '\U{292}', '\U{2C65}', '\U{2C66}', '\U{2C7E}',
          '\U{2C7F}'}
  }

  /** The characters the class accepts. */
  predicate Allowed(c: char) {
    BaseAllowed(c) || CaseFoldExtra(c)
  }

  /** Every character of `s` is in the class `keep`. */
  predicate AllIn(s: string, keep: char -> bool) {
    forall i :: 0 <= i < |s| ==> keep(s[i])
  }

  /** No character of `s` is in the class `keep`. */
  predicate NoneIn(s: string, keep: char -> bool) {
    forall i :: 0 <= i < |s| ==> !keep(s[i])
  }

  /** `s` without its leading run of characters outside `keep`. */
  function SkipRun(s: string, keep: char -> bool): (r: string)
    ensures |r| <= |s|
    ensures r == [] || keep(r[0])
  {
    if s != [] && !keep(s[0]) then SkipRun(s[1..], keep) else s
  }

  /** s.replace(/[^class]+/g, "_"): each maximal run of characters outside
      the class `keep` becomes one underscore; the others stay as they
      are. */
  function Collapse(s: string, keep: char -> bool): string
    decreases |s|
  {
    if s == [] then []
    else if keep(s[0]) then [s[0]] + Collapse(s[1..], keep)
    else "_" + Collapse(SkipRun(s[1..], keep), keep)
  }

  /** sanitizeFilename. */
  function Sanitize(name: string): string
  {
    var t := Trim(Collapse(name, Allowed));
    if t == [] then "resume" else t
  }

  lemma CollapseHead(c: char, u: string, keep: char -> bool)
    ensures Collapse([c] + u, keep) == if keep(c) then [c] + Collapse(u, keep) else "_" + Collapse(SkipRun(u, keep), keep)
  {
    assert ([c] + u)[1..] == u;
  }

  lemma ConsSplit(s: string, rest: string)
    requires s != []
    ensures s + rest == [s[0]] + (s[1..] + rest)
  {
  }

  /** Only characters of the class and underscores come out of the replace
      step, and it never makes the text longer. */
  lemma {:induction false} CollapseIn(s: string, keep: char -> bool)
    requires keep('_')
    ensures AllIn(Collapse(s, keep), keep) && |Collapse(s, keep)| <= |s|
    decreases |s|
  {
    if s != [] {
      var u := if keep(s[0]) then s[1..] else SkipRun(s[1..], keep);
      CollapseIn(u, keep);
      var head := if keep(s[0]) then [s[0]] else "_";
      assert s == [s[0]] + s[1..];
      CollapseHead(s[0], s[1..], keep);
      AllInCons(head, Collapse(u, keep), keep);
    }
  }

  lemma AllInCons(head: string, t: string, keep: char -> bool)
    requires |head| == 1 && keep(head[0]) && AllIn(t, keep)
    ensures AllIn(head + t, keep)
  {
    forall i | 0 <= i < |head + t| ensures keep((head + t)[i]) {
      if i > 0 {
        assert (head + t)[i] == t[i - 1];
      }
    }
  }

  /** Text of characters of the class passes the replace step unchanged. */
  lemma {:induction false} CollapseKeeps(s: string, keep: char -> bool)
    requires AllIn(s, keep)
    ensures Collapse(s, keep) == s
  {
    if s != [] {
      assert AllIn(s[1..], keep) by {
        forall i | 0 <= i < |s[1..]| ensures keep(s[1..][i]) {
          assert s[1..][i] == s[i + 1];
        }
      }
      CollapseKeeps(s[1..], keep);
      assert s == [s[0]] + s[1..];
    }
  }

  /** A run is skipped up to the next character of the class. */
  lemma {:induction false} SkipRunAppend(x: string, y: string, keep: char -> bool)
    requires y == [] || keep(y[0])
    ensures SkipRun(x + y, keep) == SkipRun(x, keep) + y
  {
    if x == [] {
      assert x + y == y;
    } else if !keep(x[0]) {
      assert (x + y)[1..] == x[1..] + y;
      SkipRunAppend(x[1..], y, keep);
    }
  }

  lemma {:induction false} SkipRunAll(run: string, keep: char -> bool)
    requires NoneIn(run, keep)
    ensures SkipRun(run, keep) == []
  {
    if run != [] {
      assert NoneIn(run[1..], keep) by {
        forall i | 0 <= i < |run[1..]| ensures !keep(run[1..][i]) {
          assert run[1..][i] == run[i + 1];
        }
      }
      SkipRunAll(run[1..], keep);
    }
  }

  /** The replace step works piece by piece when a piece starts with a
      character of the class: no run crosses the boundary. */
  lemma {:induction false} CollapseAppend(x: string, y: string, keep: char -> bool)
    requires y == [] || keep(y[0])
    ensures Collapse(x + y, keep) == Collapse(x, keep) + Collapse(y, keep)
    decreases |x|
  {
    if x == [] {
      assert x + y == y;
    } else {
      var c, u := x[0], x[1..];
      assert x == [c] + u;
      if keep(c) {
        CollapseAppend(u, y, keep);
        AppendKept(c, u, y, keep);
      } else {
        CollapseAppend(SkipRun(u, keep), y, keep);
        AppendSkipped(c, u, y, keep);
      }
    }
  }

  lemma AppendKept(c: char, u: string, y: string, keep: char -> bool)
    requires keep(c)
    requires Collapse(u + y, keep) == Collapse(u, keep) + Collapse(y, keep)
    ensures Collapse([c] + u + y, keep) == Collapse([c] + u, keep) + Collapse(y, keep)
  {
    assert [c] + u + y == [c] + (u + y);
    CollapseHead(c, u + y, keep);
    CollapseHead(c, u, keep);
  }

  lemma AppendSkipped(c: char, u: string, y: string, keep: char -> bool)
    requires !keep(c) && (y == [] || keep(y[0]))
    requires Collapse(SkipRun(u, keep) + y, keep) == Collapse(SkipRun(u, keep), keep) + Collapse(y, keep)
    ensures Collapse([c] + u + y, keep) == Collapse([c] + u, keep) + Collapse(y, keep)
  {
    var r := SkipRun(u, keep);
    assert [c] + u + y == [c] + (u + y);
    SkipRunAppend(u, y, keep);
    CollapseHead(c, u + y, keep);
    CollapseHead(c, u, keep);
    AppendAssoc("_", Collapse(r, keep), Collapse(y, keep));
  }

  /** A whole run of characters outside the class, however long, becomes a
      single underscore. */
  lemma CollapseRun(run: string, rest: string, keep: char -> bool)
    requires run != [] && NoneIn(run, keep)
    requires rest == [] || keep(rest[0])
    ensures Collapse(run + rest, keep) == "_" + Collapse(rest, keep)
  {
    var tail := run[1..];
    assert NoneIn(tail, keep) by {
      forall i | 0 <= i < |tail| ensures !keep(tail[i]) {
        assert tail[i] == run[i + 1];
      }
    }
    SkipRunAll(tail, keep);
    SkipRunAppend(tail, rest, keep);
    ConsSplit(run, rest);
    CollapseHead(run[0], tail + rest, keep);
  }

  /** For a class that holds every whitespace character, the replace step
      leaves text all whitespace exactly when it was all whitespace: an
      underscore is not whitespace. */
  lemma {:induction false} CollapseSpace(s: string, keep: char -> bool)
    requires forall c :: IsSpace(c) ==> keep(c)
    ensures AllSpace(Collapse(s, keep)) <==> AllSpace(s)
    decreases |s|
  {
    if s != [] {
      assert s == [s[0]] + s[1..];
      CollapseHead(s[0], s[1..], keep);
      if keep(s[0]) {
        CollapseSpace(s[1..], keep);
        AllSpaceCons(s[0], Collapse(s[1..], keep));
        AllSpaceCons(s[0], s[1..]);
      } else {
        assert Collapse(s, keep)[0] == '_';
        assert !IsSpace(s[0]);
      }
    }
  }

  lemma AllSpaceCons(x: char, t: string)
    ensures AllSpace([x] + t) <==> IsSpace(x) && AllSpace(t)
  {
    if AllSpace([x] + t) {
      assert ([x] + t)[0] == x;
      forall i | 0 <= i < |t| ensures IsSpace(t[i]) {
        assert t[i] == ([x] + t)[i + 1];
      }
    }
    if IsSpace(x) && AllSpace(t) {
      forall i | 0 <= i < |[x] + t| ensures IsSpace(([x] + t)[i]) {
        if i == 0 {
          assert ([x] + t)[0] == x;
        } else {
          assert ([x] + t)[i] == t[i - 1];
        }
      }
    }
  }

  /** The trim of text in a class is in the class. */
  lemma TrimIn(s: string, keep: char -> bool)
    requires AllIn(s, keep)
    ensures AllIn(Trim(s), keep)
  {
    TrimSlice(s);
    var i, j :| 0 <= i <= j <= |s| && Trim(s) == s[i..j];
    forall k | 0 <= k < |Trim(s)| ensures keep(Trim(s)[k]) {
      assert Trim(s)[k] == s[i + k];
    }
  }

  /** The class accepts the underscore, the letters of "resume" and every
      whitespace character. */
  lemma AllowedBasics()
    ensures Allowed('_') && AllIn("resume", Allowed)
    ensures forall c :: IsSpace(c) ==> Allowed(c)
  {
  }

  /** The file name is never empty, is made of allowed characters only and
      has no whitespace at either end. */
  lemma SanitizeShape(name: string)
    ensures Sanitize(name) != [] && AllIn(Sanitize(name), Allowed) && IsTrimmed(Sanitize(name))
  {
    AllowedBasics();
    CollapseIn(name, Allowed);
    TrimIn(Collapse(name, Allowed), Allowed);
  }

  /** The fallback "resume" is taken exactly for names that are empty or
      all whitespace; any other name keeps its trimmed, collapsed text. */
  lemma SanitizeFallback(name: string)
    ensures AllSpace(name) ==> Sanitize(name) == "resume"
    ensures !AllSpace(name) ==> Sanitize(name) == Trim(Collapse(name, Allowed)) != []
  {
    AllowedBasics();
    CollapseSpace(name, Allowed);
    TrimSlice(Collapse(name, Allowed));
  }

  /** A name of allowed characters is only trimmed. */
  lemma SanitizeAllowed(name: string)
    requires AllIn(name, Allowed)
    ensures Sanitize(name) == if AllSpace(name) then "resume" else Trim(name)
  {
    CollapseKeeps(name, Allowed);
    TrimSlice(name);
  }

  /** Sanitizing twice is sanitizing once. */
  lemma SanitizeIdempotent(name: string)
    ensures Sanitize(Sanitize(name)) == Sanitize(name)
  {
    var r := Sanitize(name);
    SanitizeShape(name);
    CollapseKeeps(r, Allowed);
    TrimTrimmed(r);
  }
}
