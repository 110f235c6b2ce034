/**
 * The ML engine's text clean-up (`ml-engine/scripts/preprocess.py`, `preprocess_text`): a
 * straight pipeline that lower-cases, deletes URL-like runs, deletes runs holding an `@`,
 * deletes ASCII punctuation, then splits on white space and joins the words with single spaces.
 * Each step is a function on strings; the properties are stated about their composition.
 */
module TextPreprocessing {
  import Text

  /** What `preprocess_text` may receive: a `str`, or any other Python value. */
  datatype Input = Str(text: string) | NotStr

  /** The characters `str.isspace` accepts, which are also those `\s`, `split()` and `strip()` treat as white space. */
  predicate IsPySpace(c: char) {
    || c == ' ' || ('\t' <= c <= '\r') || ('\U{001C}' <= c <= '\U{001F}')
    || c == '\U{0085}' || c == '\U{00A0}' || c == '\U{1680}' || ('\U{2000}' <= c <= '\U{200A}')
    || c == '\U{2028}' || c == '\U{2029}' || c == '\U{202F}' || c == '\U{205F}' || c == '\U{3000}'
  }

  predicate NoSpace(w: string) {
    forall i :: 0 <= i < |w| ==> !IsPySpace(w[i])
  }

  /** Python's `string.punctuation`. */
  const Punctuation := "!\"#$%&'()*+,-./:;<=>?@[\\]^_`{|}~"

  // ---------------------------------------------------------------- step 1: lower-casing

  /** `str.lower` is `Text.Lower`: it never turns a character into white space or back. */
  lemma LowerCharPySpace(c: char)
    ensures IsPySpace(Text.LowerChar(c)) <==> IsPySpace(c)
  {
  }

  // ---------------------------------------------------------------- runs of white space and of other characters

  /** The length of the run of non-white-space characters `s` starts with. */
  function LeadingWord(s: string): (n: nat)
    ensures n <= |s|
    ensures forall i :: 0 <= i < n ==> !IsPySpace(s[i])
    ensures n < |s| ==> IsPySpace(s[n])
  {
    if s == [] || IsPySpace(s[0]) then 0 else 1 + LeadingWord(s[1..])
  }

  /** The length of the run of white space `s` starts with. */
  function LeadingSpace(s: string): (n: nat)
    ensures n <= |s|
    ensures forall i :: 0 <= i < n ==> IsPySpace(s[i])
    ensures n < |s| ==> !IsPySpace(s[n])
  {
    if s == [] || !IsPySpace(s[0]) then 0 else 1 + LeadingSpace(s[1..])
  }

  // ---------------------------------------------------------------- step 2: `re.sub(r'http\S+|www\S+|https\S+', '', text)`

  /** `p\S+` matches at the start of `s`; it then extends to the end of the run. */
  predicate Matches(s: string, p: string) {
    |s| > |p| && s[..|p|] == p && !IsPySpace(s[|p|])
  }

  /** One of the three alternatives matches at the start of `s`. */
  predicate UrlAt(s: string) {
    Matches(s, "http") || Matches(s, "www") || Matches(s, "https")
  }

  /** The regular expression scans from the left; a match removes the whole run, otherwise one character is kept. */
  function RemoveUrls(s: string): (r: string)
    ensures |r| <= |s|
    decreases |s|
  {
    if s == [] then []
    else if UrlAt(s) then RemoveUrls(s[LeadingWord(s)..])
    else [s[0]] + RemoveUrls(s[1..])
  }

  // ---------------------------------------------------------------- step 3: `re.sub(r'\S*@\S*\s?', '', text)`

  /**
   * A match starts at a position exactly when the run of non-white-space characters from there
   * holds an `@`; it takes the rest of that run and the one white-space character after it.
   */
  function RemoveEmails(s: string): (r: string)
    ensures |r| <= |s|
    decreases |s|
  {
    if s == [] then []
    else
      var n := LeadingWord(s);
      if '@' in s[..n] then RemoveEmails(s[if n < |s| then n + 1 else n..])
      else [s[0]] + RemoveEmails(s[1..])
  }

  // ---------------------------------------------------------------- step 4: `text.translate(str.maketrans('', '', string.punctuation))`

  function RemovePunctuation(s: string): (r: string)
    ensures |r| <= |s|
    ensures forall i :: 0 <= i < |r| ==> r[i] !in Punctuation
  {
    if s == [] then []
    else if s[0] in Punctuation then RemovePunctuation(s[1..])
    else [s[0]] + RemovePunctuation(s[1..])
  }

  // ---------------------------------------------------------------- steps 6 and 9: `split()`, `" ".join`, `strip()`, `re.sub(r'\s+', ' ', …)`

  /** `str.split()`: the maximal runs of non-white-space characters, in order. */
  function Split(s: string): (words: seq<string>)
    ensures forall i :: 0 <= i < |words| ==> words[i] != [] && NoSpace(words[i])
    decreases |s|
  {
    if s == [] then []
    else if IsPySpace(s[0]) then Split(s[1..])
    else [s[..LeadingWord(s)]] + Split(s[LeadingWord(s)..])
  }

  function StripStart(s: string): (r: string)
    ensures r != [] ==> !IsPySpace(r[0])
  {
    if s != [] && IsPySpace(s[0]) then StripStart(s[1..]) else s
  }

  function StripEnd(s: string): (r: string)
    ensures r != [] ==> !IsPySpace(r[|r| - 1])
  {
    if s != [] && IsPySpace(s[|s| - 1]) then StripEnd(s[..|s| - 1]) else s
  }

  /** `str.strip()` */
  function Strip(s: string): string {
    StripEnd(StripStart(s))
  }

  /** `re.sub(r'\s+', ' ', s)`: every run of white space becomes one space. */
  function Collapse(s: string): (r: string)
    ensures |r| <= |s|
    decreases |s|
  {
    if s == [] then []
    else if IsPySpace(s[0]) then [' '] + Collapse(s[LeadingSpace(s)..])
    else [s[0]] + Collapse(s[1..])
  }

  // ---------------------------------------------------------------- the pipeline

  /** What is left of a text after the three deleting steps. */
  function Clean(s: string): string {
    RemovePunctuation(RemoveEmails(RemoveUrls(Text.Lower(s))))
  }

  /** `preprocess_text(text)` */
  function PreprocessText(v: Input): (r: string)
    ensures v.NotStr? ==> r == ""
  {
    match v
    case NotStr => ""
    case Str(s) => Collapse(Strip(Text.Join(Split(Clean(s)), " ")))
  }

  // ---------------------------------------------------------------- deletion: a subsequence

  /** `a` is `b` with some characters deleted. */
  predicate Sub(a: string, b: string)
    decreases |b|
  {
    if a == [] then true
    else if b == [] then false
    else (a[0] == b[0] && Sub(a[1..], b[1..])) || Sub(a, b[1..])
  }

  lemma {:induction false} SubRefl(a: string)
    ensures Sub(a, a)
  {
    if a != [] {
      SubRefl(a[1..]);
    }
  }

  lemma {:induction false} SubDrop(a: string, b: string, k: nat)
    requires k <= |b| && Sub(a, b[k..])
    ensures Sub(a, b)
  {
    if k > 0 {
      assert b[k - 1..][1..] == b[k..];
      SubDrop(a, b, k - 1);
    }
  }

  lemma {:induction false} SubPrefix(p: string, a: string, b: string)
    requires Sub(a, b)
    ensures Sub(p + a, p + b)
  {
    if p != [] {
      SubPrefix(p[1..], a, b);
      assert (p + a)[0] == (p + b)[0] == p[0];
      assert (p + a)[1..] == p[1..] + a;
      assert (p + b)[1..] == p[1..] + b;
    } else {
      assert p + a == a && p + b == b;
    }
  }

  lemma {:induction false} SubAppend(a: string, b: string, c: string)
    requires Sub(a, b)
    ensures Sub(a, b + c)
    decreases |b|
  {
    if a != [] {
      assert (b + c)[1..] == b[1..] + c;
      if a[0] == b[0] && Sub(a[1..], b[1..]) {
        SubAppend(a[1..], b[1..], c);
      } else {
        SubAppend(a, b[1..], c);
      }
    }
  }

  lemma {:induction false} SubTrans(a: string, b: string, c: string)
    requires Sub(a, b) && Sub(b, c)
    ensures Sub(a, c)
    decreases |c|
  {
    if a != [] {
      if b[0] == c[0] && Sub(b[1..], c[1..]) {
        if a[0] == b[0] && Sub(a[1..], b[1..]) {
          SubTrans(a[1..], b[1..], c[1..]);
        } else {
          SubTrans(a, b[1..], c[1..]);
        }
      } else {
        SubTrans(a, b, c[1..]);
      }
    }
  }

  /** Every character of a subsequence occurs in the whole. */
  lemma {:induction false} SubChars(a: string, b: string)
    requires Sub(a, b)
    ensures forall i :: 0 <= i < |a| ==> a[i] in b
    decreases |b|
  {
    if a != [] {
      if a[0] == b[0] && Sub(a[1..], b[1..]) {
        SubChars(a[1..], b[1..]);
        forall i | 1 <= i < |a| ensures a[i] in b {
          assert a[1..][i - 1] == a[i];
          assert b[1..] <= b[1..] && b == [b[0]] + b[1..];
        }
      } else {
        SubChars(a, b[1..]);
        assert b == [b[0]] + b[1..];
      }
    }
  }

  /** A white-space character written as a space. */
  function SpaceChar(c: char): (r: char)
    ensures IsPySpace(c) ==> r == ' '
    ensures !IsPySpace(c) ==> r == c
  {
    if IsPySpace(c) then ' ' else c
  }

  /** Each white-space character written as a space. */
  function MapSpace(s: string): (r: string)
    ensures |r| == |s|
  {
    if s == [] then [] else [SpaceChar(s[0])] + MapSpace(s[1..])
  }

  lemma {:induction false} SubMapSpace(a: string, b: string)
    requires Sub(a, b)
    ensures Sub(MapSpace(a), MapSpace(b))
    decreases |b|
  {
    if a != [] {
      assert MapSpace(a)[1..] == MapSpace(a[1..]);
      assert MapSpace(b)[1..] == MapSpace(b[1..]);
      if a[0] == b[0] && Sub(a[1..], b[1..]) {
        SubMapSpace(a[1..], b[1..]);
      } else {
        SubMapSpace(a, b[1..]);
      }
    }
  }

  /** Removing URLs only deletes characters. */
  lemma {:induction false} RemoveUrlsDeletes(s: string)
    ensures Sub(RemoveUrls(s), s)
    decreases |s|
  {
    if s != [] {
      if UrlAt(s) {
        RemoveUrlsDeletes(s[LeadingWord(s)..]);
        SubDrop(RemoveUrls(s), s, LeadingWord(s));
      } else {
        RemoveUrlsDeletes(s[1..]);
        SubPrefix([s[0]], RemoveUrls(s[1..]), s[1..]);
        assert [s[0]] + s[1..] == s;
      }
    }
  }

  /** Removing address-like runs only deletes characters. */
  lemma {:induction false} RemoveEmailsDeletes(s: string)
    ensures Sub(RemoveEmails(s), s)
    decreases |s|
  {
    if s != [] {
      var n := LeadingWord(s);
      if '@' in s[..n] {
        var m := if n < |s| then n + 1 else n;
        RemoveEmailsDeletes(s[m..]);
        SubDrop(RemoveEmails(s), s, m);
      } else {
        RemoveEmailsDeletes(s[1..]);
        SubPrefix([s[0]], RemoveEmails(s[1..]), s[1..]);
        assert [s[0]] + s[1..] == s;
      }
    }
  }

  /** Removing punctuation only deletes characters. */
  lemma {:induction false} RemovePunctuationDeletes(s: string)
    ensures Sub(RemovePunctuation(s), s)
  {
    if s != [] {
      RemovePunctuationDeletes(s[1..]);
      if s[0] in Punctuation {
        SubDrop(RemovePunctuation(s), s, 1);
      } else {
        SubPrefix([s[0]], RemovePunctuation(s[1..]), s[1..]);
        assert [s[0]] + s[1..] == s;
      }
    }
  }

  /** Splitting and joining with spaces keeps the words in order and turns white space into spaces. */
  lemma {:induction false} JoinSplitDeletes(t: string)
    ensures Sub(Text.Join(Split(t), " "), MapSpace(t))
    decreases |t|
  {
    if t != [] {
      if IsPySpace(t[0]) {
        JoinSplitDeletes(t[1..]);
        assert Split(t) == Split(t[1..]);
        assert MapSpace(t)[1..] == MapSpace(t[1..]);
        SubDrop(Text.Join(Split(t), " "), MapSpace(t), 1);
      } else {
        var n := LeadingWord(t);
        if n < |t| {
          JoinSplitDeletes(t[n + 1..]);
        }
        JoinSplitWord(t);
      }
    }
  }

  /** The inductive step of `JoinSplitDeletes` for a text that starts with a word. */
  lemma JoinSplitWord(t: string)
    requires t != [] && !IsPySpace(t[0])
    requires LeadingWord(t) < |t| ==>
      Sub(Text.Join(Split(t[LeadingWord(t) + 1..]), " "), MapSpace(t[LeadingWord(t) + 1..]))
    ensures Sub(Text.Join(Split(t), " "), MapSpace(t))
  {
    var n := LeadingWord(t);
    var w := t[..n];
    if n == |t| || Split(t[n + 1..]) == [] {
      LastWord(t);
      SubRefl(w);
      SubAppend(w, w, MapSpace(t[n..]));
    } else {
      var u := t[n + 1..];
      MoreWords(t);
      SubPrefix(w + " ", Text.Join(Split(u), " "), MapSpace(u));
    }
  }

  /** A text whose first word is its only word. */
  lemma LastWord(t: string)
    requires t != [] && !IsPySpace(t[0])
    requires LeadingWord(t) == |t| || Split(t[LeadingWord(t) + 1..]) == []
    ensures Text.Join(Split(t), " ") == t[..LeadingWord(t)]
    ensures MapSpace(t) == t[..LeadingWord(t)] + MapSpace(t[LeadingWord(t)..])
  {
    var n := LeadingWord(t);
    var w := t[..n];
    SplitWordFront(t);
    if n < |t| {
      SplitSpaceFront(t[n..]);
      assert t[n..][1..] == t[n + 1..];
    }
    assert Text.Join([w], " ") == w;
    MapSpaceWordFront(t);
  }

  /** A text with a word, white space, and more words after it. */
  lemma MoreWords(t: string)
    requires t != [] && !IsPySpace(t[0])
    requires LeadingWord(t) < |t| && Split(t[LeadingWord(t) + 1..]) != []
    ensures var n := LeadingWord(t);
      Text.Join(Split(t), " ") == t[..n] + " " + Text.Join(Split(t[n + 1..]), " ")
    ensures var n := LeadingWord(t);
      MapSpace(t) == t[..n] + " " + MapSpace(t[n + 1..])
  {
    var n := LeadingWord(t);
    SplitAfterWord(t);
    JoinCons(t[..n], Split(t[n + 1..]));
    MapSpaceAfterWord(t);
  }

  /** The words of a text with a word and white space after it: that word, then the words of the rest. */
  lemma SplitAfterWord(t: string)
    requires t != [] && !IsPySpace(t[0]) && LeadingWord(t) < |t|
    ensures Split(t) == [t[..LeadingWord(t)]] + Split(t[LeadingWord(t) + 1..])
  {
    var n := LeadingWord(t);
    SplitWordFront(t);
    SplitSpaceFront(t[n..]);
    assert t[n..][1..] == t[n + 1..];
  }

  lemma MapSpaceAfterWord(t: string)
    requires LeadingWord(t) < |t|
    ensures var n := LeadingWord(t);
      MapSpace(t) == t[..n] + " " + MapSpace(t[n + 1..])
  {
    var n := LeadingWord(t);
    MapSpaceWordFront(t);
    MapSpaceSpaceFront(t[n..]);
    assert t[n..][1..] == t[n + 1..];
    ConcatAssoc(t[..n], " ", MapSpace(t[n + 1..]));
  }

  lemma MapSpaceSpaceFront(u: string)
    requires u != [] && IsPySpace(u[0])
    ensures MapSpace(u) == " " + MapSpace(u[1..])
  {
  }

  lemma ConcatAssoc(a: string, b: string, c: string)
    ensures a + (b + c) == a + b + c
  {
  }

  lemma SplitWordFront(t: string)
    requires t != [] && !IsPySpace(t[0])
    ensures Split(t) == [t[..LeadingWord(t)]] + Split(t[LeadingWord(t)..])
  {
  }

  lemma MapSpaceWordFront(t: string)
    ensures MapSpace(t) == t[..LeadingWord(t)] + MapSpace(t[LeadingWord(t)..])
  {
    var n := LeadingWord(t);
    MapSpaceConcat(t[..n], t[n..]);
    MapSpaceNoSpace(t[..n]);
    assert t == t[..n] + t[n..];
  }

  lemma SplitSpaceFront(u: string)
    requires u != [] && IsPySpace(u[0])
    ensures Split(u) == Split(u[1..])
  {
  }

  lemma JoinCons(w: string, rest: seq<string>)
    requires rest != []
    ensures Text.Join([w] + rest, " ") == w + " " + Text.Join(rest, " ")
  {
    assert ([w] + rest)[1..] == rest;
  }

  lemma {:induction false} MapSpaceNoSpace(w: string)
    requires NoSpace(w)
    ensures MapSpace(w) == w
  {
    if w != [] {
      assert NoSpace(w[1..]) by {
        forall i | 0 <= i < |w[1..]| ensures !IsPySpace(w[1..][i]) {
          assert w[1..][i] == w[i + 1];
        }
      }
      MapSpaceNoSpace(w[1..]);
    }
  }
  lemma {:induction false} MapSpaceConcat(a: string, b: string)
    ensures MapSpace(a + b) == MapSpace(a) + MapSpace(b)
  {
    if a == [] {
      assert a + b == b;
    } else {
      assert (a + b)[1..] == a[1..] + b;
      MapSpaceConcat(a[1..], b);
    }
  }
  // ---------------------------------------------------------------- the shape of the joined words

  /** No white space but single spaces, none at either end and never two in a row. */
  predicate SingleSpaced(r: string) {
    && (forall i :: 0 <= i < |r| && IsPySpace(r[i]) ==> r[i] == ' ')
    && (r != [] ==> r[0] != ' ' && r[|r| - 1] != ' ')
    && (forall i :: 0 < i < |r| && r[i] == ' ' ==> r[i - 1] != ' ')
  }

  lemma {:induction false} JoinSingleSpaced(ws: seq<string>)
    requires forall i :: 0 <= i < |ws| ==> ws[i] != [] && NoSpace(ws[i])
    ensures SingleSpaced(Text.Join(ws, " "))
    ensures ws != [] ==> |Text.Join(ws, " ")| > 0
  {
    if |ws| == 1 {
      assert Text.Join(ws, " ") == ws[0];
    } else if |ws| > 1 {
      var w := ws[0];
      var j := Text.Join(ws[1..], " ");
      JoinSingleSpaced(ws[1..]);
      var r := w + " " + j;
      assert Text.Join(ws, " ") == r;
      assert ws[1..][0] == ws[1];
      forall i | 0 <= i < |r| && IsPySpace(r[i]) ensures r[i] == ' ' {
        if i > |w| {
          assert r[i] == j[i - |w| - 1];
        }
      }
      forall i | 0 < i < |r| && r[i] == ' ' ensures r[i - 1] != ' ' {
        if i > |w| + 1 {
          assert r[i] == j[i - |w| - 1] && r[i - 1] == j[i - |w| - 2];
        }
      }
    }
  }

  /** No white space but single spaces, never two in a row: what `re.sub(r'\s+', ' ', …)` leaves alone. */
  predicate SpacesSingle(r: string) {
    && (forall i :: 0 <= i < |r| && IsPySpace(r[i]) ==> r[i] == ' ')
    && (forall i :: 0 < i < |r| && r[i] == ' ' ==> r[i - 1] != ' ')
  }

  lemma {:induction false} CollapseFixed(r: string)
    requires SpacesSingle(r)
    ensures Collapse(r) == r
    decreases |r|
  {
    if r != [] {
      assert SpacesSingle(r[1..]) by {
        forall i | 0 < i < |r[1..]| && r[1..][i] == ' ' ensures r[1..][i - 1] != ' ' {
          assert r[i + 1] == ' ';
        }
      }
      if IsPySpace(r[0]) {
        assert |r| > 1 ==> !IsPySpace(r[1]);
        assert LeadingSpace(r) == 1;
      }
      CollapseFixed(r[1..]);
      assert [r[0]] + r[1..] == r;
    }
  }

  /** On a single-spaced text the final `strip` and `re.sub` change nothing. */
  lemma SingleSpacedFixed(r: string)
    requires SingleSpaced(r)
    ensures Collapse(Strip(r)) == r
  {
    assert StripStart(r) == r;
    assert StripEnd(r) == r;
    CollapseFixed(r);
  }

  // ---------------------------------------------------------------- splitting what was joined

  lemma {:induction false} LeadingWordOf(w: string, t: string)
    requires NoSpace(w) && (t == [] || IsPySpace(t[0]))
    ensures LeadingWord(w + t) == |w|
  {
    if w != [] {
      assert (w + t)[1..] == w[1..] + t;
      LeadingWordOf(w[1..], t);
    } else {
      assert w + t == t;
    }
  }

  /** Splitting words joined by spaces gives the words back. */
  lemma {:induction false} SplitJoin(ws: seq<string>)
    requires forall i :: 0 <= i < |ws| ==> ws[i] != [] && NoSpace(ws[i])
    ensures Split(Text.Join(ws, " ")) == ws
  {
    if |ws| == 1 {
      var w := ws[0];
      assert Text.Join(ws, " ") == w;
      LeadingWordOf(w, []);
      assert w + [] == w;
      assert w[|w|..] == [];
    } else if |ws| > 1 {
      var w := ws[0];
      var j := Text.Join(ws[1..], " ");
      var r := w + (" " + j);
      assert Text.Join(ws, " ") == r;
      LeadingWordOf(w, " " + j);
      assert r[..|w|] == w;
      assert r[|w|..] == " " + j;
      assert (" " + j)[1..] == j;
      SplitJoin(ws[1..]);
      assert ws == [w] + ws[1..];
    }
  }

  // ---------------------------------------------------------------- what survives the clean-up

  lemma {:induction false} RemoveUrlsFront(u: string)
    requires u != [] && IsPySpace(u[0])
    ensures RemoveUrls(u) != [] && RemoveUrls(u)[0] == u[0]
  {
    assert !UrlAt(u);
  }

  /** The position of the first match in `t`, or `|t|`. */
  function FirstUrl(t: string): (j: nat)
    ensures j <= |t|
    ensures forall i :: 0 <= i < j ==> !UrlAt(t[i..])
    ensures j < |t| ==> UrlAt(t[j..])
  {
    if t == [] || UrlAt(t) then 0
    else
      var j := FirstUrl(t[1..]);
      assert forall i :: 1 <= i < 1 + j ==> t[i..] == t[1..][i - 1..];
      1 + j
  }

  /** Before the first match, removal keeps the text as it is. */
  lemma {:induction false} RemoveUrlsPrefix(t: string, j: nat)
    requires j <= |t|
    requires forall i :: 0 <= i < j ==> !UrlAt(t[i..])
    ensures RemoveUrls(t) == t[..j] + RemoveUrls(t[j..])
  {
    if j > 0 {
      RemoveUrlsPrefix(t, j - 1);
      RemoveUrlsKeepAt(t, j - 1);
      ConcatAssoc(t[..j - 1], [t[j - 1]], RemoveUrls(t[j..]));
      assert t[..j - 1] + [t[j - 1]] == t[..j];
    } else {
      assert t[..0] + RemoveUrls(t[0..]) == RemoveUrls(t);
    }
  }

  /** A position where no match starts is kept. */
  lemma RemoveUrlsKeepAt(t: string, i: nat)
    requires i < |t| && !UrlAt(t[i..])
    ensures RemoveUrls(t[i..]) == [t[i]] + RemoveUrls(t[i + 1..])
  {
    RemoveUrlsKeep(t[i..]);
    assert t[i..][1..] == t[i + 1..];
  }

  lemma RemoveUrlsKeep(u: string)
    requires u != [] && !UrlAt(u)
    ensures RemoveUrls(u) == [u[0]] + RemoveUrls(u[1..])
  {
  }

  /** A match that ends before a cut followed by white space was already a match in the uncut text. */
  lemma MatchesCut(x: string, k: nat, w: string, p: string)
    requires forall i :: 0 <= i < |p| ==> !IsPySpace(p[i])
    requires k <= |x| && (w == [] || IsPySpace(w[0]))
    ensures Matches(x[..k] + w, p) ==> Matches(x, p)
  {
    var y := x[..k] + w;
    if Matches(y, p) {
      assert forall i :: 0 <= i < |p| ==> y[i] == p[i] by {
        forall i | 0 <= i < |p| ensures y[i] == p[i] {
          assert y[..|p|][i] == y[i];
        }
      }
      assert forall i :: 0 <= i <= |p| ==> !IsPySpace(y[i]);
      assert w != [] ==> k < |y| && IsPySpace(y[k]);
      assert k > |p|;
      assert x[..|p|] == y[..|p|];
      assert x[|p|] == y[|p|];
    }
  }

  lemma UrlAtCut(x: string, k: nat, w: string)
    requires k <= |x| && (w == [] || IsPySpace(w[0]))
    ensures UrlAt(x[..k] + w) ==> UrlAt(x)
  {
    MatchesCut(x, k, w, "http");
    MatchesCut(x, k, w, "www");
    MatchesCut(x, k, w, "https");
  }

  /** What removal leaves of a text that is empty or starts with a match is empty or starts with white space. */
  lemma RemoveUrlsAfterMatch(v: string)
    requires v == [] || UrlAt(v)
    ensures RemoveUrls(v) == [] || IsPySpace(RemoveUrls(v)[0])
  {
    if v != [] {
      var u := v[LeadingWord(v)..];
      assert RemoveUrls(v) == RemoveUrls(u);
      if u != [] {
        RemoveUrlsFront(u);
      }
    }
  }

  /** Removal keeps the text up to its first match, then goes on with white space or nothing. */
  lemma SplitAtFirstUrl(t: string) returns (j: nat, w: string)
    ensures j <= |t| && RemoveUrls(t) == t[..j] + w
    ensures w == [] || IsPySpace(w[0])
  {
    j := FirstUrl(t);
    w := RemoveUrls(t[j..]);
    RemoveUrlsPrefix(t, j);
    RemoveUrlsAfterMatch(t[j..]);
  }

  /** A kept first character never starts a match in the result. */
  lemma NoUrlAtFront(s: string)
    requires s != [] && !UrlAt(s)
    ensures !UrlAt(RemoveUrls(s))
  {
    var t := s[1..];
    var j, w := SplitAtFirstUrl(t);
    RemoveUrlsKeep(s);
    assert s[..j + 1] == [s[0]] + t[..j];
    ConcatAssoc([s[0]], t[..j], w);
    UrlAtCut(s, j + 1, w);
  }

  /** No URL-like run is left after the removal. */
  lemma {:induction false} NoUrlSurvives(s: string)
    ensures forall i :: 0 <= i < |RemoveUrls(s)| ==> !UrlAt(RemoveUrls(s)[i..])
    decreases |s|
  {
    if s != [] {
      if UrlAt(s) {
        NoUrlSurvives(s[LeadingWord(s)..]);
      } else {
        var tail := RemoveUrls(s[1..]);
        var r := RemoveUrls(s);
        RemoveUrlsKeep(s);
        NoUrlSurvives(s[1..]);
        NoUrlAtFront(s);
        forall i | 0 <= i < |r| ensures !UrlAt(r[i..]) {
          if i == 0 {
            assert r[i..] == r;
          } else {
            assert r[i..] == tail[i - 1..];
          }
        }
      }
    }
  }

  /** No `@` is left after the address removal. */
  lemma {:induction false} NoAtSurvives(s: string)
    ensures '@' !in RemoveEmails(s)
    decreases |s|
  {
    if s != [] {
      var n := LeadingWord(s);
      if '@' in s[..n] {
        NoAtSurvives(s[if n < |s| then n + 1 else n..]);
      } else {
        NoAtSurvives(s[1..]);
        assert n > 0 ==> s[0] == s[..n][0];
        assert !IsPySpace('@');
      }
    }
  }

  // ---------------------------------------------------------------- properties of `preprocess_text`

  /** The output is the words of the cleaned text joined by single spaces: the last `strip` and `re.sub` change nothing. */
  lemma OutputIsJoinedWords(s: string)
    ensures PreprocessText(Str(s)) == Text.Join(Split(Clean(s)), " ")
  {
    JoinSingleSpaced(Split(Clean(s)));
    SingleSpacedFixed(Text.Join(Split(Clean(s)), " "));
  }

  /** The output is single-spaced and its words are exactly the words of the cleaned text, in order. */
  lemma OutputShape(s: string)
    ensures SingleSpaced(PreprocessText(Str(s)))
    ensures Split(PreprocessText(Str(s))) == Split(Clean(s))
  {
    OutputIsJoinedWords(s);
    JoinSingleSpaced(Split(Clean(s)));
    SplitJoin(Split(Clean(s)));
  }

  /**
   * The output is the lower-cased input with characters deleted and each remaining white-space
   * character written as a space: nothing is reordered or added.
   */
  lemma OutputKeepsOrder(s: string)
    ensures Sub(PreprocessText(Str(s)), MapSpace(Clean(s)))
    ensures Sub(PreprocessText(Str(s)), MapSpace(Text.Lower(s)))
  {
    OutputIsJoinedWords(s);
    var l := Text.Lower(s);
    var u := RemoveUrls(l);
    var e := RemoveEmails(u);
    var c := RemovePunctuation(e);
    JoinSplitDeletes(c);
    RemoveUrlsDeletes(l);
    RemoveEmailsDeletes(u);
    RemovePunctuationDeletes(e);
    SubTrans(c, e, u);
    SubTrans(c, u, l);
    SubMapSpace(c, l);
    SubTrans(PreprocessText(Str(s)), MapSpace(c), MapSpace(l));
  }

  /** No punctuation and no upper-case letter survives; only spaces stand between words. */
  lemma OutputCharacters(s: string)
    ensures forall i :: 0 <= i < |PreprocessText(Str(s))| ==>
      var c := PreprocessText(Str(s))[i];
      c !in Punctuation && !Text.IsUpper(c) && (IsPySpace(c) ==> c == ' ')
  {
    OutputKeepsOrder(s);
    OutputShape(s);
    SurvivorChars(PreprocessText(Str(s)), RemoveEmails(RemoveUrls(Text.Lower(s))), s);
  }

  /** A subsequence of both the spaced cleaned text and the spaced lowered text has neither punctuation nor capitals. */
  lemma SurvivorChars(r: string, e: string, s: string)
    requires Sub(r, MapSpace(RemovePunctuation(e))) && Sub(r, MapSpace(Text.Lower(s)))
    ensures forall i :: 0 <= i < |r| ==> r[i] !in Punctuation && !Text.IsUpper(r[i])
  {
    SubChars(r, MapSpace(RemovePunctuation(e)));
    SubChars(r, MapSpace(Text.Lower(s)));
    forall i | 0 <= i < |r| ensures r[i] !in Punctuation && !Text.IsUpper(r[i]) {
      SurvivorChar(r[i], e, s);
    }
  }

  /** A character found in both spaced texts is neither punctuation nor a capital. */
  lemma SurvivorChar(c: char, e: string, s: string)
    requires c in MapSpace(RemovePunctuation(e)) && c in MapSpace(Text.Lower(s))
    ensures c !in Punctuation && !Text.IsUpper(c)
  {
    MapSpaceChar(RemovePunctuation(e), c);
    MapSpaceChar(Text.Lower(s), c);
    if c != ' ' {
      PunctuationFree(e, c);
      LowerFree(s, c);
    }
  }

  lemma {:induction false} MapSpaceChar(x: string, c: char)
    requires c in MapSpace(x)
    ensures c == ' ' || c in x
  {
    if x != [] {
      if c != SpaceChar(x[0]) {
        assert c in MapSpace(x[1..]);
        MapSpaceChar(x[1..], c);
      }
    }
  }

  lemma PunctuationFree(x: string, c: char)
    requires c in RemovePunctuation(x)
    ensures c !in Punctuation
  {
    var k :| 0 <= k < |RemovePunctuation(x)| && RemovePunctuation(x)[k] == c;
  }

  lemma LowerFree(s: string, c: char)
    requires c in Text.Lower(s)
    ensures !Text.IsUpper(c)
  {
    var k :| 0 <= k < |Text.Lower(s)| && Text.Lower(s)[k] == c;
  }

  /** Letter case of the input makes no difference to the output. */
  lemma CaseInsensitive(s: string)
    ensures PreprocessText(Str(Text.Lower(s))) == PreprocessText(Str(s))
  {
    Text.LowerIdempotent(s);
  }
}
