/** Option/Result wrappers shared by the other modules. */
module Wrappers {
  datatype Option<+T> = None | Some(value: T)

  /** A computation that either produces a value or fails with a message,
      as a rejected promise or a thrown Error does in the source. */
  datatype Result<+T> = Ok(value: T) | Err(message: string)
}

/** The string primitives the generator is built from: JavaScript's trim,
    split with a one-character separator, join, indexOf and
    filter(Boolean) over strings. */
module Text {

  /** Whitespace as ECMAScript defines it for both String.prototype.trim and
      the regular-expression class \s: the WhiteSpace code points (tab,
      vertical tab, form feed, space, no-break space, byte order mark and
      every Zs space separator) and the LineTerminator code points. */
  predicate IsSpace(c: char) {
    c == '\t' || c == '\n' || c == '\U{B}' || c == '\U{C}' || c == '\r' || c == ' ' ||
    c == '\U{A0}' || c == '\U{1680}' || ('\U{2000}' <= c <= '\U{200A}') ||
    c == '\U{2028}' || c == '\U{2029}' || c == '\U{202F}' || c == '\U{205F}' ||
    c == '\U{3000}' || c == '\U{FEFF}'
  }

  predicate AllSpace(s: string) {
    forall i :: 0 <= i < |s| ==> IsSpace(s[i])
  }

  /** True when `s` neither starts nor ends with whitespace. */
  predicate IsTrimmed(s: string) {
    s == [] || (!IsSpace(s[0]) && !IsSpace(s[|s| - 1]))
  }

  /** Drops the leading whitespace of `s`: the result is the suffix of `s`
      that starts at its first non-space character. */
  function TrimStart(s: string): (r: string)
    ensures |r| <= |s|
    ensures r == [] || !IsSpace(r[0])
  {
    if s != [] && IsSpace(s[0]) then TrimStart(s[1..]) else s
  }

  /** What TrimStart drops is whitespace, and what it keeps is the rest. */
  lemma {:induction false} TrimStartSuffix(s: string)
    ensures TrimStart(s) == s[|s| - |TrimStart(s)|..]
    ensures AllSpace(s[..|s| - |TrimStart(s)|])
  {
    if s != [] && IsSpace(s[0]) {
      TrimStartSuffix(s[1..]);
      var k := |s| - |TrimStart(s)|;
      assert s[k..] == s[1..][k - 1..];
      forall i | 0 <= i < k ensures IsSpace(s[..k][i]) {
        if i > 0 { assert s[..k][i] == s[1..][..k - 1][i - 1]; }
      }
    }
  }

  /** Drops the trailing whitespace of `s`: the result is the prefix of `s`
      that ends at its last non-space character. */
  function TrimEnd(s: string): (r: string)
    ensures |r| <= |s| && (r != [] ==> r[0] == s[0])
    ensures r == [] || !IsSpace(r[|r| - 1])
  {
    if s != [] && IsSpace(s[|s| - 1]) then TrimEnd(s[..|s| - 1]) else s
  }

  /** What TrimEnd drops is whitespace, and what it keeps is the rest. */
  lemma {:induction false} TrimEndPrefix(s: string)
    ensures TrimEnd(s) == s[..|TrimEnd(s)|]
    ensures AllSpace(s[|TrimEnd(s)|..])
  {
    if s != [] && IsSpace(s[|s| - 1]) {
      var p := s[..|s| - 1];
      TrimEndPrefix(p);
      var k := |TrimEnd(s)|;
      assert s[..k] == p[..k];
      forall i | k <= i < |s| ensures IsSpace(s[i]) {
        if i < |s| - 1 { assert s[i] == p[k..][i - k]; }
      }
      assert forall i :: 0 <= i < |s[k..]| ==> s[k..][i] == s[k + i];
    }
  }

  /** String.prototype.trim. */
  function Trim(s: string): (r: string)
    ensures IsTrimmed(r)
  {
    TrimEnd(TrimStart(s))
  }

  /** A string without surrounding whitespace is its own trim. */
  lemma TrimTrimmed(s: string)
    requires IsTrimmed(s)
    ensures Trim(s) == s
  {
  }

  /** The trim of `s` is a contiguous part of `s`, and it is empty exactly
      when `s` is all whitespace. */
  lemma TrimSlice(s: string)
    ensures exists i, j :: 0 <= i <= j <= |s| && Trim(s) == s[i..j]
    ensures Trim(s) == [] <==> AllSpace(s)
  {
    var a := TrimStart(s);
    var k := |s| - |a|;
    var b := TrimEnd(a);
    TrimStartSuffix(s);
    TrimEndPrefix(a);
    assert Trim(s) == s[k..k + |b|];
    if b == [] {
      forall i | 0 <= i < |s| ensures IsSpace(s[i]) {
        assert a == [];
        assert s[i] == s[..k][i];
      }
    }
  }

  /** Appending one whitespace character does not change the trim. */
  lemma {:induction false} TrimAppendSpace(s: string, c: char)
    requires IsSpace(c)
    ensures Trim(s + [c]) == Trim(s)
  {
    TrimStartAppend(s, c);
    var a := TrimStart(s);
    if AllSpace(s) {
      TrimSlice(s);
      assert TrimStart(s + [c]) == [];
    } else {
      assert TrimStart(s + [c]) == a + [c];
      assert (a + [c])[..|a + [c]| - 1] == a;
    }
  }

  lemma {:induction false} TrimStartAppend(s: string, c: char)
    requires IsSpace(c)
    ensures AllSpace(s) ==> TrimStart(s + [c]) == []
    ensures !AllSpace(s) ==> TrimStart(s + [c]) == TrimStart(s) + [c]
  {
    if s != [] {
      assert (s + [c])[1..] == s[1..] + [c];
      TrimStartAppend(s[1..], c);
      if IsSpace(s[0]) {
        assert AllSpace(s) <==> AllSpace(s[1..]) by {
          if AllSpace(s[1..]) {
            forall i | 0 <= i < |s| ensures IsSpace(s[i]) { if i > 0 { assert s[i] == s[1..][i - 1]; } }
          }
        }
      } else {
        assert !AllSpace(s);
      }
    } else {
      assert [] + [c] == [c];
    }
  }

  /** Leading whitespace is dropped from the front only: text that starts
      with a non-space character survives behind it. */
  lemma {:induction false} TrimStartBefore(s: string, t: string)
    requires t != [] && !IsSpace(t[0])
    ensures TrimStart(s + t) == TrimStart(s) + t
  {
    if s == [] {
      assert s + t == t;
    } else {
      assert (s + t)[1..] == s[1..] + t;
      TrimStartBefore(s[1..], t);
    }
  }

  /** Text that starts and ends with a non-space character only lets the
      leading whitespace of what precedes it be trimmed. */
  lemma TrimBefore(s: string, t: string)
    requires t != [] && !IsSpace(t[0]) && !IsSpace(t[|t| - 1])
    ensures Trim(s + t) == TrimStart(s) + t
  {
    TrimStartBefore(s, t);
    var r := TrimStart(s) + t;
    assert r[|r| - 1] == t[|t| - 1];
  }

  /** The concatenation of a sequence of sequences, in order. */
  function Flatten<T>(xs: seq<seq<T>>): seq<T>
  {
    if xs == [] then [] else xs[0] + Flatten(xs[1..])
  }

  lemma {:induction false} FlattenAppend<T>(xs: seq<seq<T>>, ys: seq<seq<T>>)
    ensures Flatten(xs + ys) == Flatten(xs) + Flatten(ys)
  {
    if xs == [] {
      assert xs + ys == ys;
    } else {
      assert (xs + ys)[1..] == xs[1..] + ys;
      FlattenAppend(xs[1..], ys);
    }
  }

  lemma AppendAssoc<T>(a: seq<T>, b: seq<T>, c: seq<T>)
    ensures a + (b + c) == a + b + c
  {
  }

  /** Array.prototype.join: the parts with `sep` between neighbours. */
  function Join(parts: seq<string>, sep: string): string
  {
    if |parts| == 0 then []
    else if |parts| == 1 then parts[0]
    else parts[0] + sep + Join(parts[1..], sep)
  }

  /** The joined text starts with the first part. */
  lemma JoinFirst(parts: seq<string>, sep: string)
    requires |parts| >= 1
    ensures |Join(parts, sep)| >= |parts[0]| && Join(parts, sep)[..|parts[0]|] == parts[0]
  {
  }

  /** The joined text ends with the last part. */
  lemma {:induction false} JoinLast(parts: seq<string>, sep: string)
    requires |parts| >= 1
    ensures |Join(parts, sep)| >= |parts[|parts| - 1]|
    ensures Join(parts, sep)[|Join(parts, sep)| - |parts[|parts| - 1]|..] == parts[|parts| - 1]
  {
    if |parts| > 1 {
      JoinLast(parts[1..], sep);
      var rest := Join(parts[1..], sep);
      assert Join(parts, sep) == parts[0] + sep + rest;
      assert parts[1..][|parts[1..]| - 1] == parts[|parts| - 1];
    }
  }

  /** String.prototype.split with a one-character separator: the maximal
      separator-free pieces, one more than there are separators. Joining
      them with the separator gives `s` back. */
  function Split(s: string, sep: char): (parts: seq<string>)
    ensures |parts| >= 1
    ensures forall i :: 0 <= i < |parts| ==> sep !in parts[i]
    ensures Join(parts, [sep]) == s
  {
    if s == [] then [[]]
    else
      var rest := Split(s[1..], sep);
      if s[0] == sep then
        assert ([[]] + rest)[1..] == rest;
        [[]] + rest
      else
        var parts := [[s[0]] + rest[0]] + rest[1..];
        assert parts[1..] == rest[1..];
        assert |rest| > 1 ==> Join(rest, [sep]) == rest[0] + [sep] + Join(rest[1..], [sep]);
        parts
  }

  /** A separator-free string is a single piece. */
  lemma {:induction false} SplitNoSeparator(s: string, sep: char)
    requires sep !in s
    ensures Split(s, sep) == [s]
  {
    if s != [] {
      SplitNoSeparator(s[1..], sep);
    }
  }

  lemma {:induction false} SplitAtSeparator(a: string, b: string, sep: char)
    requires sep !in a
    ensures Split(a + [sep] + b, sep) == [a] + Split(b, sep)
  {
    if a == [] {
      assert a + [sep] + b == [sep] + b;
      assert ([sep] + b)[1..] == b;
    } else {
      assert (a + [sep] + b)[1..] == a[1..] + [sep] + b;
      SplitAtSeparator(a[1..], b, sep);
      assert [a[0]] + a[1..] == a;
    }
  }

  /** Splitting undoes joining when no part contains the separator. */
  lemma {:induction false} SplitJoin(parts: seq<string>, sep: char)
    requires |parts| >= 1
    requires forall i :: 0 <= i < |parts| ==> sep !in parts[i]
    ensures Split(Join(parts, [sep]), sep) == parts
  {
    if |parts| == 1 {
      SplitNoSeparator(parts[0], sep);
    } else {
      SplitJoin(parts[1..], sep);
      SplitAtSeparator(parts[0], Join(parts[1..], [sep]), sep);
      assert [parts[0]] + parts[1..] == parts;
    }
  }

  /** Splitting at a separator that joins two strings splits each side on
      its own. */
  lemma {:induction false} SplitAppend(a: string, b: string, sep: char)
    ensures Split(a + [sep] + b, sep) == Split(a, sep) + Split(b, sep)
  {
    if a == [] {
      assert a + [sep] + b == [sep] + b;
      assert ([sep] + b)[1..] == b;
    } else {
      var s := a + [sep] + b;
      assert s[0] == a[0] && s[1..] == a[1..] + [sep] + b;
      SplitAppend(a[1..], b, sep);
      if a[0] != sep {
        HeadAppend(Split(a[1..], sep), Split(b, sep));
      }
    }
  }

  lemma HeadAppend<T>(x: seq<T>, y: seq<T>)
    requires |x| >= 1
    ensures (x + y)[0] == x[0] && (x + y)[1..] == x[1..] + y
  {
  }

  /** Text joined with a whitespace separator is all whitespace exactly
      when every part is. */
  lemma {:induction false} AllSpaceJoin(parts: seq<string>, sep: char)
    requires IsSpace(sep)
    ensures AllSpace(Join(parts, [sep])) <==> forall i :: 0 <= i < |parts| ==> AllSpace(parts[i])
  {
    if |parts| > 1 {
      AllSpaceJoin(parts[1..], sep);
      var a, r := parts[0], Join(parts[1..], [sep]);
      assert AllSpace(a + [sep] + r) <==> AllSpace(a) && AllSpace(r) by {
        var j := a + [sep] + r;
        if AllSpace(a) && AllSpace(r) {
          forall k | 0 <= k < |j| ensures IsSpace(j[k]) {
            if k < |a| { assert j[k] == a[k]; }
            else if k > |a| { assert j[k] == r[k - |a| - 1]; }
          }
        }
        if AllSpace(j) {
          forall k | 0 <= k < |a| ensures IsSpace(a[k]) { assert a[k] == j[k]; }
          forall k | 0 <= k < |r| ensures IsSpace(r[k]) { assert r[k] == j[k + |a| + 1]; }
        }
      }
      assert forall i :: 1 <= i < |parts| ==> parts[i] == parts[1..][i - 1];
    }
  }

  /** Trimming never introduces a character. */
  lemma TrimKeeps(s: string, c: char)
    requires c !in s
    ensures c !in Trim(s)
  {
    TrimSlice(s);
  }

  /** filter(Boolean) over strings: the non-empty elements, in order. */
  function NonEmpty(xs: seq<string>): (r: seq<string>)
    ensures |r| <= |xs|
    ensures forall i :: 0 <= i < |r| ==> r[i] != []
    ensures r == [] <==> forall i :: 0 <= i < |xs| ==> xs[i] == []
  {
    if xs == [] then []
    else
      var rest := NonEmpty(xs[1..]);
      assert (forall i :: 0 <= i < |xs[1..]| ==> xs[1..][i] == []) ==> forall i :: 1 <= i < |xs| ==> xs[i] == [] by {
        if forall i :: 0 <= i < |xs[1..]| ==> xs[1..][i] == [] {
          forall i | 1 <= i < |xs| ensures xs[i] == [] { assert xs[i] == xs[1..][i - 1]; }
        }
      }
      if xs[0] != [] then [xs[0]] + rest else rest
  }

  lemma {:induction false} NonEmptyAppend(a: seq<string>, b: seq<string>)
    ensures NonEmpty(a + b) == NonEmpty(a) + NonEmpty(b)
  {
    if a != [] {
      assert (a + b)[1..] == a[1..] + b;
      NonEmptyAppend(a[1..], b);
    } else {
      assert a + b == b;
    }
  }

  /** map(s => s.trim()).filter(Boolean): the trims of the elements, in
      order, leaving out those that are empty. */
  function TrimNonEmpty(xs: seq<string>): (r: seq<string>)
    ensures |r| <= |xs|
    ensures forall i :: 0 <= i < |r| ==> r[i] != [] && IsTrimmed(r[i])
  {
    if xs == [] then []
    else
      var t := Trim(xs[0]);
      if t == [] then TrimNonEmpty(xs[1..]) else [t] + TrimNonEmpty(xs[1..])
  }

  lemma TrimNonEmptySingle(x: string)
    ensures TrimNonEmpty([x]) == if Trim(x) == [] then [] else [Trim(x)]
  {
    assert [x][1..] == [];
  }

  lemma {:induction false} TrimNonEmptyAppend(xs: seq<string>, ys: seq<string>)
    ensures TrimNonEmpty(xs + ys) == TrimNonEmpty(xs) + TrimNonEmpty(ys)
  {
    if xs == [] {
      assert xs + ys == ys;
    } else {
      assert (xs + ys)[1..] == xs[1..] + ys;
      TrimNonEmptyAppend(xs[1..], ys);
    }
  }

  /** Nothing is kept exactly when every element is whitespace only. */
  lemma {:induction false} TrimNonEmptyNone(xs: seq<string>)
    ensures TrimNonEmpty(xs) == [] <==> forall i :: 0 <= i < |xs| ==> AllSpace(xs[i])
  {
    if xs != [] {
      TrimNonEmptyNone(xs[1..]);
      TrimSlice(xs[0]);
      assert forall i :: 1 <= i < |xs| ==> xs[i] == xs[1..][i - 1];
    }
  }

  /** A character that no element holds is in no kept element. */
  lemma {:induction false} TrimNonEmptyKeeps(xs: seq<string>, c: char)
    requires forall i :: 0 <= i < |xs| ==> c !in xs[i]
    ensures forall i :: 0 <= i < |TrimNonEmpty(xs)| ==> c !in TrimNonEmpty(xs)[i]
  {
    if xs != [] {
      var rest := TrimNonEmpty(xs[1..]);
      assert forall i :: 0 <= i < |xs[1..]| ==> c !in xs[1..][i] by {
        forall i | 0 <= i < |xs[1..]| ensures c !in xs[1..][i] {
          assert xs[1..][i] == xs[i + 1];
        }
      }
      TrimNonEmptyKeeps(xs[1..], c);
      TrimKeeps(xs[0], c);
      var t := Trim(xs[0]);
      if t != [] {
        assert TrimNonEmpty(xs) == [t] + rest;
        forall i | 0 <= i < |[t] + rest| ensures c !in ([t] + rest)[i] {
          if i > 0 {
            assert ([t] + rest)[i] == rest[i - 1];
          }
        }
      }
    }
  }

  /** String.prototype.indexOf for one character: -1 when absent, else the
      position of its first occurrence. */
  function IndexOf(s: string, c: char): (k: int)
    ensures k == -1 <==> c !in s
    ensures k != -1 ==> 0 <= k < |s| && s[k] == c && c !in s[..k]
  {
    if s == [] then -1
    else if s[0] == c then 0
    else
      var k := IndexOf(s[1..], c);
      assert s[1..] == s[..|s|][1..];
      if k == -1 then -1
      else
        assert s[..k + 1] == [s[0]] + s[1..][..k];
        k + 1
  }

  function Min(a: int, b: int): int { if a <= b then a else b }

  function Max(a: int, b: int): int { if a >= b then a else b }
}
