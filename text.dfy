/**
  * The .NET string operations the core relies on, over `seq<char>`.
  * Case mapping is restricted to ASCII (the invariant culture maps more letters).
  */
module Text {

  /** `char.IsWhiteSpace`: U+0009..U+000D, U+0085 and the Unicode space, line and paragraph separators. */
  predicate IsWhiteSpace(c: char) {
    var n := c as int;
    (9 <= n <= 13) || n == 0x20 || n == 0x85 || n == 0xA0 || n == 0x1680
    || (0x2000 <= n <= 0x200A) || n == 0x2028 || n == 0x2029 || n == 0x202F
    || n == 0x205F || n == 0x3000
  }

  /** `string.IsNullOrWhiteSpace` on a non-null string: empty or whitespace only. */
  predicate IsBlank(s: string) {
    forall i :: 0 <= i < |s| ==> IsWhiteSpace(s[i])
  }

  function UpperChar(c: char): (u: char)
    ensures IsWhiteSpace(u) == IsWhiteSpace(c)
  {
    if 'a' <= c <= 'z' then (c as int - 32) as char else c
  }

  function LowerChar(c: char): (l: char)
    ensures IsWhiteSpace(l) == IsWhiteSpace(c)
  {
    if 'A' <= c <= 'Z' then (c as int + 32) as char else c
  }

  /** `ToUpperInvariant`, ASCII letters only. */
  function Upper(s: string): (u: string)
    ensures |u| == |s|
  {
    seq(|s|, i requires 0 <= i < |s| => UpperChar(s[i]))
  }

  /** `ToLowerInvariant`, ASCII letters only. */
  function Lower(s: string): (l: string)
    ensures |l| == |s|
  {
    seq(|s|, i requires 0 <= i < |s| => LowerChar(s[i]))
  }

  function TrimStart(s: string): (r: string)
    ensures |r| <= |s|
  {
    if |s| > 0 && IsWhiteSpace(s[0]) then TrimStart(s[1..]) else s
  }

  function TrimEnd(s: string): (r: string)
    ensures |r| <= |s|
  {
    if |s| > 0 && IsWhiteSpace(s[|s| - 1]) then TrimEnd(s[..|s| - 1]) else s
  }

  /** `string.Trim()`: drops leading and trailing whitespace. */
  function Trim(s: string): string {
    TrimEnd(TrimStart(s))
  }

  /** A string with no whitespace at either end is its own trim. */
  lemma TrimUnpadded(s: string)
    requires s == [] || (!IsWhiteSpace(s[0]) && !IsWhiteSpace(s[|s| - 1]))
    ensures Trim(s) == s
  {
  }

  /** `StartsWith(prefix, StringComparison.OrdinalIgnoreCase)`. */
  predicate StartsWithIgnoreCase(s: string, prefix: string) {
    |prefix| <= |s| && Upper(s[..|prefix|]) == Upper(prefix)
  }

  /** `EndsWith(suffix, StringComparison.OrdinalIgnoreCase)`. */
  predicate EndsWithIgnoreCase(s: string, suffix: string) {
    |suffix| <= |s| && Upper(s[|s| - |suffix|..]) == Upper(suffix)
  }

  /** `string.Split(separator)` without options: empty pieces are kept, so the result is never empty. */
  function Split(s: string, separator: char): (pieces: seq<string>)
    ensures |pieces| >= 1
  {
    if s == [] then [[]]
    else
      var rest := Split(s[1..], separator);
      if s[0] == separator then [[]] + rest
      else [[s[0]] + rest[0]] + rest[1..]
  }

  // ---------------------------------------------------------------------------
  // Facts about the operations above

  lemma {:induction false} TrimStartShape(s: string)
    ensures TrimStart(s) == s[|s| - |TrimStart(s)|..]
    ensures |TrimStart(s)| > 0 ==> !IsWhiteSpace(TrimStart(s)[0])
    ensures forall i :: 0 <= i < |s| - |TrimStart(s)| ==> IsWhiteSpace(s[i])
  {
    if |s| > 0 && IsWhiteSpace(s[0]) {
      TrimStartShape(s[1..]);
    }
  }

  lemma {:induction false} TrimEndShape(s: string)
    ensures TrimEnd(s) == s[..|TrimEnd(s)|]
    ensures |TrimEnd(s)| > 0 ==> !IsWhiteSpace(TrimEnd(s)[|TrimEnd(s)| - 1])
    ensures forall i :: |TrimEnd(s)| <= i < |s| ==> IsWhiteSpace(s[i])
  {
    if |s| > 0 && IsWhiteSpace(s[|s| - 1]) {
      TrimEndShape(s[..|s| - 1]);
    }
  }

  /** Trimming removes exactly the outer whitespace: what is left neither starts nor ends with it. */
  lemma TrimShape(s: string)
    ensures |Trim(s)| > 0 ==> !IsWhiteSpace(Trim(s)[0]) && !IsWhiteSpace(Trim(s)[|Trim(s)| - 1])
  {
    TrimStartShape(s);
    TrimEndShape(TrimStart(s));
  }

  lemma {:induction false} TrimStartNoLeadingSpace(s: string)
    requires |s| == 0 || !IsWhiteSpace(s[0])
    ensures TrimStart(s) == s
  {
  }

  lemma {:induction false} TrimEndNoTrailingSpace(s: string)
    requires |s| == 0 || !IsWhiteSpace(s[|s| - 1])
    ensures TrimEnd(s) == s
  {
  }

  /** `Trim` is idempotent. */
  lemma TrimIdempotent(s: string)
    ensures Trim(Trim(s)) == Trim(s)
  {
    TrimShape(s);
    var t := Trim(s);
    TrimStartNoLeadingSpace(t);
    TrimEndNoTrailingSpace(t);
  }

  /** Whitespace in front of a string does not survive `Trim`. */
  lemma {:induction false} TrimLeadingBlank(w: string, s: string)
    requires IsBlank(w)
    ensures Trim(w + s) == Trim(s)
  {
    TrimStartLeadingBlank(w, s);
  }

  lemma {:induction false} TrimStartLeadingBlank(w: string, s: string)
    requires IsBlank(w)
    ensures TrimStart(w + s) == TrimStart(s)
  {
    if w != [] {
      assert (w + s)[0] == w[0] && (w + s)[1..] == w[1..] + s;
      TrimStartLeadingBlank(w[1..], s);
    } else {
      assert w + s == s;
    }
  }

  lemma {:induction false} TrimEndTrailingBlank(s: string, w: string)
    requires IsBlank(w)
    ensures TrimEnd(s + w) == TrimEnd(s)
  {
    if w != [] {
      assert (s + w)[|s + w| - 1] == w[|w| - 1];
      assert (s + w)[..|s + w| - 1] == s + w[..|w| - 1];
      TrimEndTrailingBlank(s, w[..|w| - 1]);
    } else {
      assert s + w == s;
    }
  }

  lemma {:induction false} TrimStartAppend(s: string, w: string)
    requires TrimStart(s) != []
    ensures TrimStart(s + w) == TrimStart(s) + w
  {
    assert s != [];
    assert (s + w)[0] == s[0] && (s + w)[1..] == s[1..] + w;
    if IsWhiteSpace(s[0]) {
      TrimStartAppend(s[1..], w);
    }
  }

  /** Whitespace after a string does not survive `Trim`. */
  lemma TrimTrailingBlank(s: string, w: string)
    requires IsBlank(w)
    ensures Trim(s + w) == Trim(s)
  {
    if TrimStart(s) != [] {
      TrimStartAppend(s, w);
      TrimEndTrailingBlank(TrimStart(s), w);
    } else {
      BlankIffTrimEmpty(s);
      TrimStartShape(s);
      assert IsBlank(s + w) by {
        forall i | 0 <= i < |s + w| ensures IsWhiteSpace((s + w)[i]) {
          if i < |s| { assert (s + w)[i] == s[i]; } else { assert (s + w)[i] == w[i - |s|]; }
        }
      }
      assert s + w == (s + w) + [];
      TrimStartLeadingBlank(s + w, []);
    }
  }

  /** A string is blank exactly when nothing is left of it after `Trim`. */
  lemma BlankIffTrimEmpty(s: string)
    ensures IsBlank(s) <==> Trim(s) == []
  {
    TrimStartShape(s);
    TrimEndShape(TrimStart(s));
    if IsBlank(s) {
      assert s == s + [];
      TrimStartLeadingBlank(s, []);
    }
  }

  lemma {:induction false} TrimStartUpper(s: string)
    ensures TrimStart(Upper(s)) == Upper(TrimStart(s))
  {
    if |s| > 0 && IsWhiteSpace(s[0]) {
      assert Upper(s)[1..] == Upper(s[1..]);
      TrimStartUpper(s[1..]);
    }
  }

  lemma {:induction false} TrimEndUpper(s: string)
    ensures TrimEnd(Upper(s)) == Upper(TrimEnd(s))
  {
    if |s| > 0 && IsWhiteSpace(s[|s| - 1]) {
      assert Upper(s)[..|s| - 1] == Upper(s[..|s| - 1]);
      TrimEndUpper(s[..|s| - 1]);
    }
  }

  /** Upper-casing and trimming commute (the case mapping never touches whitespace). */
  lemma TrimUpper(s: string)
    ensures Trim(Upper(s)) == Upper(Trim(s))
  {
    TrimStartUpper(s);
    TrimEndUpper(TrimStart(s));
  }

  /** Upper-casing forgets any earlier case mapping. */
  lemma UpperAbsorbs(s: string)
    ensures Upper(Upper(s)) == Upper(s)
    ensures Upper(Lower(s)) == Upper(s)
  {
  }

  /** Lower-casing forgets any earlier case mapping, so lower-cased keys identify case variants. */
  lemma LowerAbsorbs(s: string)
    ensures Lower(Lower(s)) == Lower(s)
    ensures Lower(Upper(s)) == Lower(s)
  {
  }

  /** Strings with the same upper-case form have the same lower-case form. */
  lemma SameUpperSameLower(s: string, t: string)
    requires Upper(s) == Upper(t)
    ensures Lower(s) == Lower(t)
  {
    forall i | 0 <= i < |s| ensures Lower(s)[i] == Lower(t)[i] {
      assert Upper(s)[i] == Upper(t)[i];
    }
  }

  /** `Split` commutes with upper-casing when the separator is not a letter. */
  lemma {:induction false} SplitUpper(s: string, separator: char)
    requires UpperChar(separator) == separator && LowerChar(separator) == separator
    ensures |Split(Upper(s), separator)| == |Split(s, separator)|
    ensures forall k :: 0 <= k < |Split(s, separator)| ==>
              Split(Upper(s), separator)[k] == Upper(Split(s, separator)[k])
  {
    if s != [] {
      SplitUpper(s[1..], separator);
      assert Upper(s)[1..] == Upper(s[1..]);
      if s[0] == separator {
        SplitUpperAtSeparator(s, separator);
      } else {
        SplitUpperOther(s, separator);
      }
    }
  }

  lemma SplitUpperAtSeparator(s: string, separator: char)
    requires s != [] && s[0] == separator && UpperChar(separator) == separator
    requires Upper(s)[1..] == Upper(s[1..])
    requires |Split(Upper(s[1..]), separator)| == |Split(s[1..], separator)|
    requires forall k :: 0 <= k < |Split(s[1..], separator)| ==>
               Split(Upper(s[1..]), separator)[k] == Upper(Split(s[1..], separator)[k])
    ensures |Split(Upper(s), separator)| == |Split(s, separator)|
    ensures forall k :: 0 <= k < |Split(s, separator)| ==>
              Split(Upper(s), separator)[k] == Upper(Split(s, separator)[k])
  {
    var rest, urest := Split(s[1..], separator), Split(Upper(s[1..]), separator);
    assert Upper(s)[0] == separator;
    assert Split(s, separator) == [[]] + rest;
    assert Split(Upper(s), separator) == [[]] + urest;
  }

  lemma SplitUpperOther(s: string, separator: char)
    requires s != [] && s[0] != separator
    requires UpperChar(separator) == separator && LowerChar(separator) == separator
    requires Upper(s)[1..] == Upper(s[1..])
    requires |Split(Upper(s[1..]), separator)| == |Split(s[1..], separator)|
    requires forall k :: 0 <= k < |Split(s[1..], separator)| ==>
               Split(Upper(s[1..]), separator)[k] == Upper(Split(s[1..], separator)[k])
    ensures |Split(Upper(s), separator)| == |Split(s, separator)|
    ensures forall k :: 0 <= k < |Split(s, separator)| ==>
              Split(Upper(s), separator)[k] == Upper(Split(s, separator)[k])
  {
    var u := Upper(s);
    assert u[0] == UpperChar(s[0]) != separator;
    SplitOther(s, separator);
    SplitOther(u, separator);
    PiecesUpper(s[0], Split(s[1..], separator), Split(Upper(s[1..]), separator));
  }

  /** Unfolds `Split` once at a first character that is not the separator. */
  lemma SplitOther(s: string, separator: char)
    requires s != [] && s[0] != separator
    ensures Split(s, separator) == [[s[0]] + Split(s[1..], separator)[0]] + Split(s[1..], separator)[1..]
  {
  }

  /** Upper-casing piece by piece survives putting a character in front of the first piece. */
  lemma PiecesUpper(x: char, rest: seq<string>, urest: seq<string>)
    requires |urest| == |rest| >= 1
    requires forall k :: 0 <= k < |rest| ==> urest[k] == Upper(rest[k])
    ensures var p, q := [[x] + rest[0]] + rest[1..], [[UpperChar(x)] + urest[0]] + urest[1..];
            |q| == |p| && forall k :: 0 <= k < |p| ==> q[k] == Upper(p[k])
  {
    var p, q := [[x] + rest[0]] + rest[1..], [[UpperChar(x)] + urest[0]] + urest[1..];
    forall k | 0 <= k < |p| ensures q[k] == Upper(p[k]) {
      if k == 0 {
        assert Upper([x] + rest[0]) == [UpperChar(x)] + urest[0];
      } else {
        assert p[k] == rest[k] && q[k] == urest[k];
      }
    }
  }

  /** Splitting at a separator occurrence splits the pieces the same way. */
  lemma {:induction false} SplitAtSeparator(a: string, b: string, separator: char)
    ensures Split(a + [separator] + b, separator) == Split(a, separator) + Split(b, separator)
  {
    if a == [] {
      assert a + [separator] + b == [separator] + b;
      assert ([separator] + b)[1..] == b;
    } else {
      assert (a + [separator] + b)[1..] == a[1..] + [separator] + b;
      SplitAtSeparator(a[1..], b, separator);
    }
  }

  /** Text without the separator joins the last piece. */
  lemma {:induction false} SplitAppendPlain(a: string, w: string, separator: char)
    requires separator !in w
    ensures var p := Split(a, separator);
            Split(a + w, separator) == p[..|p| - 1] + [p[|p| - 1] + w]
  {
    if a == [] {
      SplitPlain(w, separator);
      assert a + w == w;
    } else {
      assert (a + w)[0] == a[0] && (a + w)[1..] == a[1..] + w;
      SplitAppendPlain(a[1..], w, separator);
      var rest := Split(a[1..], separator);
      if a[0] != separator {
        SplitOther(a, separator);
        SplitOther(a + w, separator);
        JoinLastUnderFirst(a[0], rest, w);
      }
    }
  }

  /** Appending to the last piece commutes with putting a character in front of the first. */
  lemma JoinLastUnderFirst(x: char, rest: seq<string>, w: string)
    requires |rest| >= 1
    ensures var joined, p := rest[..|rest| - 1] + [rest[|rest| - 1] + w], [[x] + rest[0]] + rest[1..];
            [[x] + joined[0]] + joined[1..] == p[..|p| - 1] + [p[|p| - 1] + w]
  {
    if |rest| == 1 {
      assert [x] + (rest[0] + w) == ([x] + rest[0]) + w;
    }
  }

  /** Text without the separator joins the first piece. */
  lemma {:induction false} SplitPrependPlain(w: string, b: string, separator: char)
    requires separator !in w
    ensures var p := Split(b, separator);
            Split(w + b, separator) == [w + p[0]] + p[1..]
  {
    if w != [] {
      assert w[0] != separator && separator !in w[1..];
      assert (w + b)[0] == w[0] && (w + b)[1..] == w[1..] + b;
      SplitPrependPlain(w[1..], b, separator);
      var p := Split(b, separator);
      var rest := Split(w[1..] + b, separator);
      assert rest[0] == w[1..] + p[0] && rest[1..] == p[1..];
      SplitOther(w + b, separator);
      assert [w[0]] + (w[1..] + p[0]) == w + p[0];
    } else {
      var p := Split(b, separator);
      assert w + b == b && w + p[0] == p[0];
      assert [p[0]] + p[1..] == p;
    }
  }

  lemma {:induction false} SplitPlain(w: string, separator: char)
    requires separator !in w
    ensures Split(w, separator) == [w]
  {
    if w != [] {
      assert w[0] != separator && separator !in w[1..];
      SplitPlain(w[1..], separator);
      assert [w[0]] + w[1..] == w;
    }
  }
}
