/** The Python string operations the exemplar formatter calls: whitespace
    (`str.isspace`, which is also what `\s` matches in a `re` pattern over
    `str`), `str.strip`, `re.sub(r"\s+", " ", ...)`, `sep.join(...)` and the
    decimal rendering of an `int` inside an f-string. `LStrip` and `RStrip`
    are the two halves of `strip`. `str.split()` and `" ".join(...)` are not
    called by the formatter: they are an independent reference, used to state
    what the collapse computes. */
module PyText {

  /** Python's `str.isspace` on one character: the Unicode whitespace set. */
  predicate IsSpace(c: char) {
    || ('\t' <= c <= '\r')
    || ('\U{1C}' <= c <= ' ')
    || c == '\U{85}' || c == '\U{A0}' || c == '\U{1680}'
    || ('\U{2000}' <= c <= '\U{200A}')
    || c == '\U{2028}' || c == '\U{2029}' || c == '\U{202F}' || c == '\U{205F}'
    || c == '\U{3000}'
  }

  predicate AllSpace(s: string) {
    forall i :: 0 <= i < |s| ==> IsSpace(s[i])
  }

  predicate NoSpace(s: string) {
    forall i :: 0 <= i < |s| ==> !IsSpace(s[i])
  }

  /** A word as `str.split()` produces it: non-empty, no whitespace. */
  predicate IsWord(w: string) {
    |w| > 0 && NoSpace(w)
  }

  /** The shape of a collapsed query: every whitespace character is a plain
      space, no two whitespace characters are adjacent, and neither end is
      whitespace. */
  ghost predicate IsOneLine(s: string) {
    && (forall i :: 0 <= i < |s| && IsSpace(s[i]) ==> s[i] == ' ')
    && (forall i, j :: 0 <= i < j < |s| && j == i + 1 && IsSpace(s[i]) ==> !IsSpace(s[j]))
    && (|s| > 0 ==> !IsSpace(s[0]) && !IsSpace(s[|s| - 1]))
  }

  // ---------------------------------------------------------------------
  // str.lstrip / str.rstrip / str.strip

  /** The length of the whitespace run that starts `s`. */
  function LeadingSpaces(s: string): (n: nat)
    ensures n <= |s| && AllSpace(s[..n])
    ensures n == |s| || !IsSpace(s[n])
  {
    if s != [] && IsSpace(s[0]) then 1 + LeadingSpaces(s[1..]) else 0
  }

  /** `s.lstrip()`: the suffix of `s` left after removing leading whitespace. */
  function LStrip(s: string): (r: string)
    ensures r == [] || !IsSpace(r[0])
    ensures s != [] && IsSpace(s[0]) ==> |r| < |s|
  {
    s[LeadingSpaces(s)..]
  }

  /** One step of `lstrip` on a string that starts with whitespace. */
  lemma LStripStep(s: string)
    requires s != [] && IsSpace(s[0])
    ensures LStrip(s) == LStrip(s[1..])
  {
    assert s[1..][LeadingSpaces(s[1..])..] == s[LeadingSpaces(s)..];
  }

  /** `s.rstrip()`: `s` without its trailing whitespace. */
  function RStrip(s: string): (r: string)
    ensures r == [] || !IsSpace(r[|r| - 1])
    ensures r == [] <==> AllSpace(s)
  {
    if s == [] then []
    else
      var t := RStrip(s[1..]);
      if t == [] && IsSpace(s[0]) then [] else [s[0]] + t
  }

  /** `s.strip()`: drops leading whitespace, then trailing whitespace. */
  function Strip(s: string): (r: string)
    ensures r == [] || (!IsSpace(r[0]) && !IsSpace(r[|r| - 1]))
  {
    if s != [] && IsSpace(s[0]) then Strip(s[1..]) else RStrip(s)
  }

  /** `s.strip() == s.lstrip().rstrip()`. */
  lemma {:induction false} StripIsRStripOfLStrip(s: string)
    ensures Strip(s) == RStrip(LStrip(s))
  {
    if s != [] && IsSpace(s[0]) {
      StripIsRStripOfLStrip(s[1..]);
      LStripStep(s);
    }
  }

  // ---------------------------------------------------------------------
  // re.sub(r"\s+", " ", s)

  /** Replaces every maximal run of whitespace in `s` by a single space. */
  function CollapseSpace(s: string): string
    decreases |s|
  {
    if s == [] then []
    else if IsSpace(s[0]) then " " + CollapseSpace(LStrip(s))
    else [s[0]] + CollapseSpace(s[1..])
  }

  /** `re.sub(r"\s+", " ", s)` leaves no whitespace other than single plain
      spaces, and keeps a non-whitespace first character. */
  lemma {:induction false} CollapseSpaceSingleSpaces(s: string)
    ensures var r := CollapseSpace(s);
      && (forall i :: 0 <= i < |r| && IsSpace(r[i]) ==> r[i] == ' ')
      && (forall i, j :: 0 <= i < j < |r| && j == i + 1 && IsSpace(r[i]) ==> !IsSpace(r[j]))
    ensures s != [] && !IsSpace(s[0]) ==> |CollapseSpace(s)| > 0 && CollapseSpace(s)[0] == s[0]
    decreases |s|
  {
    if s != [] {
      var t := if IsSpace(s[0]) then LStrip(s) else s[1..];
      var h := if IsSpace(s[0]) then ' ' else s[0];
      CollapseSpaceSingleSpaces(t);
      var c := CollapseSpace(t);
      var r := [h] + c;
      assert CollapseSpace(s) == r;
      forall i | 0 <= i < |r| && IsSpace(r[i])
        ensures r[i] == ' '
      {
        if i > 0 { assert r[i] == c[i - 1]; }
      }
      forall i, j | 0 <= i < j < |r| && j == i + 1 && IsSpace(r[i])
        ensures !IsSpace(r[j])
      {
        if i == 0 { assert r[j] == c[0] == t[0]; }
        else { assert r[i] == c[i - 1] && r[j] == c[j - 1]; }
      }
    }
  }

  // ---------------------------------------------------------------------
  // str.split() and sep.join(parts)

  /** The longest prefix of `s` holding no whitespace. */
  function TakeWord(s: string): (w: string)
    ensures |w| <= |s| && w == s[..|w|] && NoSpace(w)
    ensures |w| == |s| || IsSpace(s[|w|])
    ensures s != [] && !IsSpace(s[0]) ==> |w| > 0
  {
    if s == [] || IsSpace(s[0]) then [] else [s[0]] + TakeWord(s[1..])
  }

  /** `s.split()`: the maximal whitespace-free runs of `s`, in order. */
  function Words(s: string): (ws: seq<string>)
    ensures forall j :: 0 <= j < |ws| ==> IsWord(ws[j])
    decreases |s|
  {
    var t := LStrip(s);
    if t == [] then []
    else
      var w := TakeWord(t);
      var rest := Words(t[|w|..]);
      assert forall j :: 0 <= j < |rest| + 1 ==> IsWord(([w] + rest)[j]) by {
        forall j | 0 <= j < |rest| + 1
          ensures IsWord(([w] + rest)[j])
        {
          if j > 0 {
            assert ([w] + rest)[j] == rest[j - 1];
          }
        }
      }
      [w] + rest
  }

  /** `sep.join(parts)`. */
  function Join(parts: seq<string>, sep: string): string {
    if |parts| == 0 then ""
    else if |parts| == 1 then parts[0]
    else Join(parts[..|parts| - 1], sep) + sep + parts[|parts| - 1]
  }

  // ---------------------------------------------------------------------
  // f"{n}" for a non-negative int

  function DigitChar(d: int): (c: char)
    requires 0 <= d < 10
    ensures '0' <= c <= '9' && c as int - '0' as int == d
  {
    ('0' as int + d) as char
  }

  predicate IsDigits(s: string) {
    forall i :: 0 <= i < |s| ==> '0' <= s[i] <= '9'
  }

  /** Decimal rendering of `n`, as `str(n)` gives it. */
  function NatToString(n: nat): (s: string)
    ensures |s| >= 1 && IsDigits(s)
    ensures s[0] == '0' ==> n == 0
  {
    if n < 10 then [DigitChar(n)] else NatToString(n / 10) + [DigitChar(n % 10)]
  }

  /** The value of a string of decimal digits, as `int(s)` reads it. */
  function DecimalValue(s: string): nat
    requires IsDigits(s)
  {
    if s == [] then 0
    else DecimalValue(s[..|s| - 1]) * 10 + (s[|s| - 1] as int - '0' as int)
  }

  // ---------------------------------------------------------------------
  // Lemmas

  /** Reading back the decimal rendering gives the number: distinct example
      numbers render as distinct strings. */
  lemma {:induction false} NatToStringRoundTrip(n: nat)
    ensures DecimalValue(NatToString(n)) == n
  {
    if n >= 10 {
      NatToStringRoundTrip(n / 10);
      var s := NatToString(n);
      assert s[..|s| - 1] == NatToString(n / 10);
    }
  }

  /** Appending one part to a join. */
  lemma JoinSnoc(parts: seq<string>, x: string, sep: string)
    requires |parts| > 0
    ensures Join(parts + [x], sep) == Join(parts, sep) + sep + x
  {
    assert (parts + [x])[..|parts|] == parts;
  }

  /** Splitting off the first part of a join. */
  lemma {:induction false} JoinCons(w: string, ws: seq<string>, sep: string)
    requires |ws| > 0
    ensures Join([w] + ws, sep) == w + sep + Join(ws, sep)
    decreases |ws|
  {
    var all := [w] + ws;
    if |ws| > 1 {
      assert all[..|all| - 1] == [w] + ws[..|ws| - 1];
      JoinCons(w, ws[..|ws| - 1], sep);
    }
  }

  /** A join whose first part is non-empty starts with that part's first character. */
  lemma {:induction false} JoinFirstChar(parts: seq<string>, sep: string)
    requires |parts| > 0 && |parts[0]| > 0
    ensures |Join(parts, sep)| > 0 && Join(parts, sep)[0] == parts[0][0]
    decreases |parts|
  {
    if |parts| > 1 {
      JoinFirstChar(parts[..|parts| - 1], sep);
    }
  }

  /** Removing leading whitespace a second time changes nothing. */
  lemma LStripIdempotent(s: string)
    ensures LStrip(LStrip(s)) == LStrip(s)
  {
  }

  /** `lstrip` removes a whitespace prefix in front of a non-whitespace start. */
  lemma {:induction false} LStripSpacePrefix(sp: string, v: string)
    requires AllSpace(sp)
    requires v == [] || !IsSpace(v[0])
    ensures LeadingSpaces(sp + v) == |sp|
    ensures LStrip(sp + v) == v
    decreases |sp|
  {
    if sp == [] {
      assert sp + v == v;
    } else {
      assert (sp + v)[1..] == sp[1..] + v;
      LStripSpacePrefix(sp[1..], v);
    }
  }

  /** `rstrip` removes only trailing whitespace: `s` is `s.rstrip()`
      followed by whitespace. */
  lemma {:induction false} RStripIsPrefix(s: string)
    ensures |RStrip(s)| <= |s| && RStrip(s) == s[..|RStrip(s)|]
    ensures AllSpace(s[|RStrip(s)|..])
    decreases |s|
  {
    if s != [] {
      var t := RStrip(s[1..]);
      RStripIsPrefix(s[1..]);
      if !(t == [] && IsSpace(s[0])) {
        assert s[|t| + 1..] == s[1..][|t|..];
      }
    }
  }

  /** Cutting `s` at `a` and then cutting the remainder at `|r|` gives the
      three parts of `s` around `r`. */
  lemma EndSpaceParts(s: string, a: nat, r: string)
    requires a <= |s|
    requires |r| <= |s| - a && r == s[a..][..|r|] && AllSpace(s[a..][|r|..])
    ensures a + |r| <= |s| && r == s[a..a + |r|] && AllSpace(s[a + |r|..])
  {
    assert s[a..][|r|..] == s[a + |r|..];
  }

  /** `strip` removes only whitespace, and only at the ends: `s` is some
      whitespace, then `s.strip()`, then some whitespace. */
  lemma StripRemovesOnlyEndSpace(s: string)
    ensures var a := LeadingSpaces(s);
      && a + |Strip(s)| <= |s| && Strip(s) == s[a..a + |Strip(s)|]
      && AllSpace(s[..a]) && AllSpace(s[a + |Strip(s)|..])
  {
    var a := LeadingSpaces(s);
    StripIsRStripOfLStrip(s);
    RStripIsPrefix(s[a..]);
    EndSpaceParts(s, a, Strip(s));
  }

  /** `rstrip` leaves a string that does not end in whitespace unchanged. */
  lemma {:induction false} RStripNoTrailing(s: string)
    requires s == [] || !IsSpace(s[|s| - 1])
    ensures RStrip(s) == s
    decreases |s|
  {
    if |s| > 1 {
      RStripNoTrailing(s[1..]);
    }
  }

  /** `rstrip` ignores a trailing all-whitespace part. */
  lemma {:induction false} RStripSpaceSuffix(a: string, b: string)
    requires AllSpace(b)
    ensures RStrip(a + b) == RStrip(a)
    decreases |a|
  {
    if a == [] {
      assert a + b == b;
    } else {
      assert (a + b)[1..] == a[1..] + b;
      RStripSpaceSuffix(a[1..], b);
    }
  }

  /** `rstrip` keeps a prefix when a non-whitespace character follows it. */
  lemma {:induction false} RStripKeepsPrefix(a: string, b: string)
    requires !AllSpace(b)
    ensures RStrip(a + b) == a + RStrip(b)
    decreases |a|
  {
    if a == [] {
      assert a + b == b;
    } else {
      assert (a + b)[1..] == a[1..] + b;
      RStripKeepsPrefix(a[1..], b);
    }
  }

  /** Collapsing passes over a whitespace-free prefix unchanged. */
  lemma {:induction false} CollapseNoSpacePrefix(a: string, b: string)
    requires NoSpace(a)
    ensures CollapseSpace(a + b) == a + CollapseSpace(b)
    decreases |a|
  {
    if a == [] {
      assert a + b == b;
    } else {
      assert (a + b)[1..] == a[1..] + b;
      CollapseNoSpacePrefix(a[1..], b);
    }
  }

  /** A string with no whitespace is its own collapse. */
  lemma CollapseNoSpace(a: string)
    requires NoSpace(a)
    ensures CollapseSpace(a) == a
  {
    CollapseNoSpacePrefix(a, []);
    assert a + [] == a;
  }

  /** Collapsing a whitespace run in front of a non-whitespace start yields one space. */
  lemma CollapseSpaceRun(sp: string, v: string)
    requires |sp| > 0 && AllSpace(sp)
    requires v == [] || !IsSpace(v[0])
    ensures CollapseSpace(sp + v) == " " + CollapseSpace(v)
  {
    LStripSpacePrefix(sp, v);
    assert (sp + v)[0] == sp[0];
  }

  /** `s.split()` does not see leading whitespace. */
  lemma WordsSkipLeading(s: string)
    ensures Words(LStrip(s)) == Words(s)
  {
    LStripIdempotent(s);
  }

  /** One step of `s.split()` on a string that starts with a word. */
  lemma WordsStep(t: string)
    requires t != [] && !IsSpace(t[0])
    ensures Words(t) == [TakeWord(t)] + Words(t[|TakeWord(t)|..])
  {
    assert LStrip(t) == t;
  }

  /** Collapsing the right-stripped `w + sp + u` keeps the word `w` and turns
      the run `sp` into one space. */
  lemma CollapseRStripStep(w: string, sp: string, u: string)
    requires NoSpace(w) && |sp| > 0 && AllSpace(sp)
    requires u != [] && !IsSpace(u[0])
    ensures CollapseSpace(RStrip(w + (sp + u))) == w + " " + CollapseSpace(RStrip(u))
  {
    assert !AllSpace(u) by { assert !IsSpace(u[0]); }
    assert !AllSpace(sp + u) by { assert (sp + u)[|sp|] == u[0]; }
    RStripKeepsPrefix(w, sp + u);
    RStripKeepsPrefix(sp, u);
    var v := RStrip(u);
    assert v != [] && v[0] == u[0];
    CollapseNoSpacePrefix(w, sp + v);
    CollapseSpaceRun(sp, v);
  }

  /** Collapsing the right-stripped `w + rest` gives `w` when `rest` is all whitespace. */
  lemma CollapseRStripOneWord(w: string, rest: string)
    requires NoSpace(w) && AllSpace(rest)
    ensures CollapseSpace(RStrip(w + rest)) == w
  {
    RStripSpaceSuffix(w, rest);
    RStripNoTrailing(w);
    CollapseNoSpace(w);
  }

  /** A string that starts with a word splits into that word, the whitespace
      run after it and the rest, and `split()` yields the word and then the
      words of the rest. */
  lemma SplitFirstWord(t: string) returns (w: string, sp: string, u: string)
    requires t != [] && !IsSpace(t[0])
    ensures t == w + (sp + u) && IsWord(w) && AllSpace(sp)
    ensures u == [] || (|sp| > 0 && !IsSpace(u[0]))
    ensures Words(t) == [w] + Words(u)
  {
    w := TakeWord(t);
    var rest := t[|w|..];
    u := LStrip(rest);
    sp := rest[..|rest| - |u|];
    assert t == w + rest;
    assert rest == sp + u;
    if u != [] {
      assert IsSpace(rest[0]);
    }
    WordsStep(t);
    WordsSkipLeading(rest);
  }

  /** Core of the collapse theorem, for a string that starts with a
      non-whitespace character. */
  lemma {:induction false} CollapseRStripIsJoinedWords(t: string)
    requires t == [] || !IsSpace(t[0])
    ensures CollapseSpace(RStrip(t)) == Join(Words(t), " ")
    decreases |t|
  {
    if t != [] {
      var w, sp, u := SplitFirstWord(t);
      if u == [] {
        assert sp + u == sp;
        CollapseRStripOneWord(w, sp);
      } else {
        CollapseRStripStep(w, sp, u);
        CollapseRStripIsJoinedWords(u);
        assert |Words(u)| > 0 by { assert LStrip(u) == u; }
        JoinCons(w, Words(u), " ");
      }
    }
  }

  /** `re.sub(r"\s+", " ", s.strip())` equals `" ".join(s.split())`. */
  lemma CollapseStripIsJoinedWords(s: string)
    ensures CollapseSpace(Strip(s)) == Join(Words(s), " ")
  {
    StripIsRStripOfLStrip(s);
    CollapseRStripIsJoinedWords(LStrip(s));
    WordsSkipLeading(s);
  }

  /** Joining words with single spaces gives a one-line string. */
  lemma {:induction false} JoinedWordsIsOneLine(ws: seq<string>)
    requires forall j :: 0 <= j < |ws| ==> IsWord(ws[j])
    ensures IsOneLine(Join(ws, " "))
    ensures |ws| > 0 ==> |ws[0]| > 0 && |Join(ws, " ")| > 0 && Join(ws, " ")[0] == ws[0][0]
    decreases |ws|
  {
    if |ws| == 1 {
      assert Join(ws, " ") == ws[0];
    } else if |ws| > 1 {
      var w := ws[0];
      var tl := ws[1..];
      assert ws == [w] + tl;
      JoinCons(w, tl, " ");
      JoinedWordsIsOneLine(tl);
      var j := Join(tl, " ");
      var r := w + " " + j;
      assert Join(ws, " ") == r;
      forall i | 0 <= i < |r| && IsSpace(r[i])
        ensures r[i] == ' '
      {
        if i > |w| { assert r[i] == j[i - |w| - 1]; }
      }
      forall i, i' | 0 <= i < i' < |r| && i' == i + 1 && IsSpace(r[i])
        ensures !IsSpace(r[i'])
      {
        if i == |w| { assert r[i'] == j[0]; }
        else if i > |w| { assert r[i] == j[i - |w| - 1] && r[i'] == j[i' - |w| - 1]; }
      }
      assert r[|r| - 1] == j[|j| - 1];
    }
  }

  /** The first word of a string starting with a word is that word. */
  lemma {:induction false} TakeWordOfWord(w: string, rest: string)
    requires NoSpace(w)
    requires rest == [] || IsSpace(rest[0])
    ensures TakeWord(w + rest) == w
    decreases |w|
  {
    if w == [] {
      assert w + rest == rest;
    } else {
      assert (w + rest)[1..] == w[1..] + rest;
      TakeWordOfWord(w[1..], rest);
    }
  }

  /** `" ".join(ws).split() == ws` for words: splitting undoes joining. */
  lemma {:induction false} WordsOfJoin(ws: seq<string>)
    requires forall j :: 0 <= j < |ws| ==> IsWord(ws[j])
    ensures Words(Join(ws, " ")) == ws
    decreases |ws|
  {
    if |ws| == 1 {
      var w := ws[0];
      assert Join(ws, " ") == w;
      assert LStrip(w) == w;
      TakeWordOfWord(w, []);
      assert w + [] == w;
      assert w[|w|..] == [];
    } else if |ws| > 1 {
      var w := ws[0];
      var tl := ws[1..];
      assert ws == [w] + tl;
      JoinCons(w, tl, " ");
      var j := Join(tl, " ");
      JoinedWordsIsOneLine(tl);
      var s := w + (" " + j);
      assert Join(ws, " ") == s;
      assert LStrip(s) == s;
      TakeWordOfWord(w, " " + j);
      assert s[|w|..] == " " + j;
      LStripSpacePrefix(" ", j);
      WordsSkipLeading(" " + j);
      WordsOfJoin(tl);
    }
  }
}
