/**
 * String operations the JavaScript code relies on: `trim`, `toLowerCase`, `startsWith`, `||` on texts,
 * `split(' ')` and `join`. Strings are sequences of characters.
 */
module Text {
  import opened Wrappers

  /** The characters `String.prototype.trim` removes (WhiteSpace and LineTerminator of ECMA-262). */
  predicate IsJsSpace(c: char) {
    || c == ' ' || c == '\t' || c == '\n' || c == '\r' || c == '\U{000B}' || c == '\U{000C}'
    || c == '\U{00A0}' || c == '\U{1680}' || ('\U{2000}' <= c <= '\U{200A}')
    || c == '\U{2028}' || c == '\U{2029}' || c == '\U{202F}' || c == '\U{205F}'
    || c == '\U{3000}' || c == '\U{FEFF}'
  }

  function TrimStart(s: string): (r: string)
    ensures |r| <= |s| && r == s[|s| - |r|..]
    ensures r != [] ==> !IsJsSpace(r[0])
  {
    if s != [] && IsJsSpace(s[0]) then TrimStart(s[1..]) else s
  }

  function TrimEnd(s: string): (r: string)
    ensures |r| <= |s| && r == s[..|r|]
    ensures r != [] ==> !IsJsSpace(r[|r| - 1])
  {
    if s != [] && IsJsSpace(s[|s| - 1]) then TrimEnd(s[..|s| - 1]) else s
  }

  /** `s.trim()`: a factor of `s` with no surrounding white space. */
  function Trim(s: string): (r: string)
    ensures |r| <= |s|
    ensures r != [] ==> !IsJsSpace(r[0]) && !IsJsSpace(r[|r| - 1])
  {
    TrimEnd(TrimStart(s))
  }

  /** `v || fallback` on a text that may be undefined: an undefined or empty text gives the fallback. */
  function TextOr(v: Option<string>, fallback: string): (r: string)
    ensures v.None? || v.value == "" ==> r == fallback
    ensures v.Some? && v.value != "" ==> r == v.value
  {
    if v.Some? && v.value != "" then v.value else fallback
  }

  /** The upper-case letters the model maps: ASCII, Latin-1 and basic Cyrillic. */
  predicate IsUpper(c: char) {
    || ('A' <= c <= 'Z')
    || ('\U{00C0}' <= c <= '\U{00DE}' && c != '\U{00D7}')
    || ('\U{0400}' <= c <= '\U{042F}')
  }

  /**
   * Lower-casing one character, as JavaScript's `toLowerCase` and Python's `str.lower` both do it
   * for these letters: each capital maps to its one-character small letter, anything else is kept.
   */
  function LowerChar(c: char): (r: char)
    ensures !IsUpper(r)
    ensures !IsUpper(c) ==> r == c
    ensures IsUpper(c) ==> r != c
  {
    if 'A' <= c <= 'Z' || ('\U{00C0}' <= c <= '\U{00DE}' && c != '\U{00D7}') || ('\U{0410}' <= c <= '\U{042F}')
    then (c as int + 0x20) as char
    else if '\U{0400}' <= c <= '\U{040F}' then (c as int + 0x50) as char
    else c
  }

  function Lower(s: string): (r: string)
    ensures |r| == |s|
    ensures forall i :: 0 <= i < |s| ==> r[i] == LowerChar(s[i])
  {
    if s == [] then [] else [LowerChar(s[0])] + Lower(s[1..])
  }

  /** What a path declared `trim: true, lowercase: true` stores for `s`. */
  function Normalize(s: string): string {
    Lower(Trim(s))
  }

  /** Lower-casing never turns a character into white space or back. */
  lemma LowerCharSpace(c: char)
    ensures IsJsSpace(LowerChar(c)) <==> IsJsSpace(c)
  {
  }

  lemma {:induction false} LowerIdempotent(s: string)
    ensures Lower(Lower(s)) == Lower(s)
  {
    if s != [] {
      LowerIdempotent(s[1..]);
      assert Lower(s)[1..] == Lower(s[1..]);
    }
  }

  /** Capitals beyond ASCII fold too: "Éva" and "éva" are one username once stored. */
  lemma AccentedCapitalFolds()
    ensures Lower("\U{00C9}va") == Lower("\U{00E9}va") == "\U{00E9}va"
  {
    var s, t := "\U{00C9}va", "\U{00E9}va";
    assert Lower(s)[0] == LowerChar(s[0]) == t[0];
    assert Lower(t)[0] == LowerChar(t[0]) == t[0];
  }

  /** Trimming and lower-casing commute. */
  lemma {:induction false} TrimLower(s: string)
    ensures Trim(Lower(s)) == Lower(Trim(s))
  {
    TrimStartLower(s);
    TrimEndLower(TrimStart(s));
  }

  lemma {:induction false} TrimStartLower(s: string)
    ensures TrimStart(Lower(s)) == Lower(TrimStart(s))
  {
    if s != [] {
      LowerCharSpace(s[0]);
      assert Lower(s)[0] == LowerChar(s[0]);
      assert Lower(s)[1..] == Lower(s[1..]);
      TrimStartLower(s[1..]);
    }
  }

  lemma {:induction false} TrimEndLower(s: string)
    ensures TrimEnd(Lower(s)) == Lower(TrimEnd(s))
  {
    if s != [] {
      var n := |s| - 1;
      LowerCharSpace(s[n]);
      assert Lower(s)[n] == LowerChar(s[n]);
      assert Lower(s)[..n] == Lower(s[..n]);
      TrimEndLower(s[..n]);
    }
  }

  /** A string without surrounding white space is its own trim. */
  lemma TrimNoSpace(s: string)
    requires s != [] ==> !IsJsSpace(s[0]) && !IsJsSpace(s[|s| - 1])
    ensures Trim(s) == s
  {
  }

  /** Normalizing twice is normalizing once: stored values are fixed points. */
  lemma NormalizeIdempotent(s: string)
    ensures Normalize(Normalize(s)) == Normalize(s)
  {
    var t := Trim(s);
    TrimLower(t);
    TrimNoSpace(t);
    LowerIdempotent(t);
  }

  /** Lower-casing a query value before the path's own trim and lowercase setters changes nothing. */
  lemma NormalizeLower(s: string)
    ensures Normalize(Lower(s)) == Normalize(s)
  {
    TrimLower(s);
    LowerIdempotent(Trim(s));
  }

  /** Strings equal up to letter case normalize alike. */
  lemma LowerSameNormalize(x: string, y: string)
    requires Lower(x) == Lower(y)
    ensures Normalize(x) == Normalize(y)
  {
    NormalizeLower(x);
    NormalizeLower(y);
  }

  predicate StartsWith(s: string, prefix: string) {
    |prefix| <= |s| && s[..|prefix|] == prefix
  }

  /** `parts.join(sep)`. */
  function Join(parts: seq<string>, sep: string): string {
    if |parts| == 0 then ""
    else if |parts| == 1 then parts[0]
    else parts[0] + sep + Join(parts[1..], sep)
  }

  /** `s.split(c)` for a one-character separator: the fields between the occurrences of `c`. */
  function SplitOn(s: string, c: char): (fields: seq<string>)
    ensures |fields| >= 1
  {
    if s == [] then [""]
    else
      var rest := SplitOn(s[1..], c);
      if s[0] == c then [""] + rest else [[s[0]] + rest[0]] + rest[1..]
  }

  /** No field of `s.split(c)` contains `c`, and joining the fields with `c` gives `s` back. */
  lemma {:induction false} SplitOnJoin(s: string, c: char)
    ensures forall f :: f in SplitOn(s, c) ==> c !in f
    ensures Join(SplitOn(s, c), [c]) == s
  {
    if s != [] {
      var rest := SplitOn(s[1..], c);
      SplitOnJoin(s[1..], c);
      if s[0] == c {
        assert SplitOn(s, c) == [""] + rest;
        assert Join(SplitOn(s, c), [c]) == "" + [c] + Join(rest, [c]);
      } else {
        var fields := SplitOn(s, c);
        assert fields == [[s[0]] + rest[0]] + rest[1..];
        assert rest[0] in rest;
        if |rest| == 1 {
          assert Join(fields, [c]) == [s[0]] + rest[0];
        } else {
          assert fields[1..] == rest[1..];
          assert Join(rest, [c]) == rest[0] + [c] + Join(rest[1..], [c]);
          assert Join(fields, [c]) == [s[0]] + rest[0] + [c] + Join(rest[1..], [c]);
        }
        forall f | f in fields ensures c !in f {
          if f != fields[0] {
            assert f in rest;
          }
        }
      }
    }
  }

  /** A string without the separator is a single field. */
  lemma {:induction false} SplitOnWithout(s: string, c: char)
    requires c !in s
    ensures SplitOn(s, c) == [s]
  {
    if s != [] {
      assert c !in s[1..] by {
        forall x | x in s[1..] ensures x != c { assert x in s; }
      }
      SplitOnWithout(s[1..], c);
      assert s[0] != c;
      assert [s[0]] + s[1..] == s;
    }
  }

  /** The first occurrence of the separator ends the first field. */
  lemma {:induction false} SplitOnFirst(a: string, c: char, b: string)
    requires c !in a
    ensures SplitOn(a + [c] + b, c) == [a] + SplitOn(b, c)
  {
    if a == [] {
      assert a + [c] + b == [c] + b;
      assert ([c] + b)[1..] == b;
    } else {
      var s := a + [c] + b;
      assert s[1..] == a[1..] + [c] + b;
      SplitOnFirst(a[1..], c, b);
      assert [a[0]] + a[1..] == a;
    }
  }

  /** Decimal digits of a natural number, as template literals render it. */
  function NatText(n: nat): (r: string)
    ensures |r| >= 1
    ensures forall i :: 0 <= i < |r| ==> '0' <= r[i] <= '9'
  {
    if n < 10 then [('0' as int + n) as char] else NatText(n / 10) + [('0' as int + n % 10) as char]
  }
}
