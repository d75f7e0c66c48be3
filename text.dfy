/** String operations of Python's `str` used by the stores, on `seq<char>`. */
module Text {

  /** The characters Python's `str.isspace()`, `str.strip()` and the regular-expression class `\s` treat as whitespace. */
  predicate IsSpace(c: char) {
    var n := c as int;
    || (9 <= n <= 13) || (28 <= n <= 32) || n == 133 || n == 160 || n == 5760
    || (8192 <= n <= 8202) || n == 8232 || n == 8233 || n == 8239 || n == 8287 || n == 12288
  }

  predicate IsDigit(c: char) { '0' <= c <= '9' }

  function DigitValue(c: char): (v: nat)
    requires IsDigit(c)
    ensures v < 10
  {
    c as int - '0' as int
  }

  function DigitChar(n: nat): (c: char)
    requires n < 10
    ensures IsDigit(c) && DigitValue(c) == n
  {
    ('0' as int + n) as char
  }

  /** `str.lower()` on ASCII letters; other characters are kept. */
  function LowerChar(c: char): char {
    if 'A' <= c <= 'Z' then (c as int + 32) as char else c
  }

  function Lower(s: string): (r: string)
    ensures |r| == |s|
    ensures forall i :: 0 <= i < |s| ==> r[i] == LowerChar(s[i])
  {
    if s == [] then [] else [LowerChar(s[0])] + Lower(s[1..])
  }

  predicate StartsWith(s: string, prefix: string) {
    |prefix| <= |s| && s[..|prefix|] == prefix
  }

  /** Python's `sub in s`. */
  predicate Contains(s: string, sub: string)
    decreases |s|
  {
    StartsWith(s, sub) || (s != [] && Contains(s[1..], sub))
  }

  /** `sub` occurs in `s` starting at position `i`. */
  predicate OccursAt(s: string, sub: string, i: nat) {
    i + |sub| <= |s| && s[i..i + |sub|] == sub
  }

  lemma {:induction false} ContainsAt(s: string, sub: string, i: nat)
    requires OccursAt(s, sub, i)
    ensures Contains(s, sub)
    decreases i
  {
    if i > 0 {
      assert s[1..][i - 1..i - 1 + |sub|] == s[i..i + |sub|];
      ContainsAt(s[1..], sub, i - 1);
    }
  }

  lemma {:induction false} ContainsWitness(s: string, sub: string) returns (i: nat)
    requires Contains(s, sub)
    ensures OccursAt(s, sub, i)
    decreases |s|
  {
    if StartsWith(s, sub) {
      i := 0;
    } else {
      var j := ContainsWitness(s[1..], sub);
      assert s[1..][j..j + |sub|] == s[j + 1..j + 1 + |sub|];
      i := j + 1;
    }
  }

  /** `sub in s` if and only if `sub` occurs at some position of `s`. */
  lemma ContainsIff(s: string, sub: string)
    ensures Contains(s, sub) <==> exists i: nat :: OccursAt(s, sub, i)
  {
    if Contains(s, sub) {
      var i := ContainsWitness(s, sub);
    }
    if exists i: nat :: OccursAt(s, sub, i) {
      var i: nat :| OccursAt(s, sub, i);
      ContainsAt(s, sub, i);
    }
  }

  function TrimLeft(s: string): (r: string)
    ensures |r| <= |s|
    ensures r == [] || !IsSpace(r[0])
    ensures forall i :: 0 <= i < |s| - |r| ==> IsSpace(s[i])
  {
    if s != [] && IsSpace(s[0]) then TrimLeft(s[1..]) else s
  }

  /** What `TrimLeft` keeps is a suffix of its input. */
  lemma {:induction false} TrimLeftSuffix(s: string)
    ensures TrimLeft(s) == s[|s| - |TrimLeft(s)|..]
  {
    if s != [] && IsSpace(s[0]) {
      TrimLeftSuffix(s[1..]);
    }
  }

  function TrimRight(s: string): (r: string)
    ensures |r| <= |s| && r == s[..|r|]
    ensures r == [] || !IsSpace(r[|r| - 1])
    ensures forall i :: |r| <= i < |s| ==> IsSpace(s[i])
  {
    if s != [] && IsSpace(s[|s| - 1]) then TrimRight(s[..|s| - 1]) else s
  }

  /** How many whitespace characters `s` starts with. */
  function LeadingSpaces(s: string): (n: nat)
    ensures n <= |s|
    ensures forall k :: 0 <= k < n ==> IsSpace(s[k])
    ensures n < |s| ==> !IsSpace(s[n])
  {
    TrimLeftSuffix(s);
    |s| - |TrimLeft(s)|
  }

  /**
   * `str.strip()`: the text with its leading and trailing whitespace cut off, that is the window of
   * `s` that starts after its leading whitespace and has only whitespace after it.
   */
  function Strip(s: string): (r: string)
    ensures r == [] || (!IsSpace(r[0]) && !IsSpace(r[|r| - 1]))
    ensures LeadingSpaces(s) + |r| <= |s| && r == s[LeadingSpaces(s)..LeadingSpaces(s) + |r|]
    ensures forall k :: LeadingSpaces(s) + |r| <= k < |s| ==> IsSpace(s[k])
  {
    TrimLeftSuffix(s);
    StripWindow(s, TrimLeft(s));
    StripTrailing(s, TrimLeft(s));
    TrimRight(TrimLeft(s))
  }

  lemma StripWindow(s: string, l: string)
    requires |l| <= |s| && l == s[|s| - |l|..]
    ensures |s| - |l| + |TrimRight(l)| <= |s|
    ensures TrimRight(l) == s[|s| - |l|..|s| - |l| + |TrimRight(l)|]
  {
    SliceOfSuffix(s, |s| - |l|, |TrimRight(l)|);
  }

  lemma SliceOfSuffix(s: string, i: nat, n: nat)
    requires i + n <= |s|
    ensures s[i..][..n] == s[i..i + n]
  {
  }

  lemma StripTrailing(s: string, l: string)
    requires |l| <= |s| && l == s[|s| - |l|..]
    ensures forall k :: |s| - |l| + |TrimRight(l)| <= k < |s| ==> IsSpace(s[k])
  {
    var i, r := |s| - |l|, TrimRight(l);
    assert l == s[i..];
    forall k | i + |r| <= k < |s| ensures IsSpace(s[k]) {
      assert s[k] == l[k - i];
      assert |r| <= k - i < |l|;
    }
  }

  /** The characters of `s` that are not whitespace, in order. */
  function NonSpace(s: string): (r: string)
    ensures forall i :: 0 <= i < |r| ==> !IsSpace(r[i])
  {
    if s == [] then [] else (if IsSpace(s[0]) then [] else [s[0]]) + NonSpace(s[1..])
  }

  lemma {:induction false} NonSpaceConcat(a: string, b: string)
    ensures NonSpace(a + b) == NonSpace(a) + NonSpace(b)
  {
    if a != [] {
      assert (a + b)[0] == a[0] && (a + b)[1..] == a[1..] + b;
      NonSpaceConcat(a[1..], b);
    } else {
      assert a + b == b;
    }
  }

  /** Stripping removes only whitespace. */
  lemma StripNonSpace(s: string)
    ensures NonSpace(Strip(s)) == NonSpace(s)
  {
    TrimLeftNonSpace(s);
    TrimRightNonSpace(TrimLeft(s));
  }

  lemma {:induction false} TrimRightNonSpace(s: string)
    ensures NonSpace(TrimRight(s)) == NonSpace(s)
  {
    if s != [] && IsSpace(s[|s| - 1]) {
      var front := s[..|s| - 1];
      TrimRightNonSpace(front);
      assert s == front + [s[|s| - 1]];
      NonSpaceConcat(front, [s[|s| - 1]]);
    }
  }

  lemma {:induction false} TrimLeftNonSpace(s: string)
    ensures NonSpace(TrimLeft(s)) == NonSpace(s)
  {
    if s != [] && IsSpace(s[0]) {
      TrimLeftNonSpace(s[1..]);
    }
  }

  /** `str(n)` for a natural number: decimal digits, no leading zero. */
  function NatToString(n: nat): (r: string)
    ensures r != [] && AllDigits(r)
    decreases n
  {
    if n < 10 then [DigitChar(n)] else NatToString(n / 10) + [DigitChar(n % 10)]
  }

  /** `str(n)` for an integer. */
  function IntToString(n: int): (r: string)
    ensures r != []
    ensures n >= 0 ==> AllDigits(r)
    ensures n < 0 ==> r[0] == '-'
  {
    if n >= 0 then NatToString(n) else "-" + NatToString(-n)
  }

  predicate AllDigits(s: string) {
    forall i :: 0 <= i < |s| ==> IsDigit(s[i])
  }

  /** `int(s)` for a string of decimal digits. */
  function DigitsValue(s: string): (v: nat)
    requires AllDigits(s)
  {
    if s == [] then 0 else 10 * DigitsValue(s[..|s| - 1]) + DigitValue(s[|s| - 1])
  }

  /** The value of four decimal digits. */
  lemma DigitsValue4(p: string)
    requires |p| == 4 && AllDigits(p)
    ensures DigitsValue(p) == 1000 * DigitValue(p[0]) + 100 * DigitValue(p[1]) + 10 * DigitValue(p[2]) + DigitValue(p[3])
  {
    var p3, p2, p1 := p[..3], p[..2], p[..1];
    assert p[..|p| - 1] == p3 && p3[..|p3| - 1] == p2 && p2[..|p2| - 1] == p1 && p1[..|p1| - 1] == [];
    assert DigitsValue(p1) == DigitValue(p[0]);
    assert DigitsValue(p2) == 10 * DigitValue(p[0]) + DigitValue(p[1]);
    assert DigitsValue(p3) == 100 * DigitValue(p[0]) + 10 * DigitValue(p[1]) + DigitValue(p[2]);
  }

  /** Appending two digits multiplies the value by a hundred and adds theirs. */
  lemma DigitsValueAppend2(a: string, b: string)
    requires AllDigits(a) && AllDigits(b) && |b| == 2
    ensures AllDigits(a + b) && DigitsValue(a + b) == 100 * DigitsValue(a) + DigitsValue(b)
  {
    var ab, a1 := a + b, a + b[..1];
    assert ab[..|ab| - 1] == a1 && a1[..|a1| - 1] == a;
    assert ab[|ab| - 1] == b[1] && a1[|a1| - 1] == b[0];
    assert b[..1][..0] == [] && b[..|b| - 1] == b[..1];
    assert DigitsValue(b[..1]) == DigitValue(b[0]);
    assert DigitsValue(a1) == 10 * DigitsValue(a) + DigitValue(b[0]);
  }

  /** `int(str(n)) == n`. */
  lemma {:induction false} NatToStringValue(n: nat)
    ensures DigitsValue(NatToString(n)) == n
    decreases n
  {
    if n >= 10 {
      NatToStringValue(n / 10);
      var s := NatToString(n);
      assert s[..|s| - 1] == NatToString(n / 10);
    }
  }

  /** Zero-padded two-digit field (`%02d` for values below 100). */
  function Pad2(n: nat): (r: string)
    requires n < 100
    ensures |r| == 2 && AllDigits(r)
  {
    [DigitChar(n / 10), DigitChar(n % 10)]
  }

  /** `%04d` for values below 10000. */
  function Pad4(n: nat): (r: string)
    requires n < 10000
    ensures |r| == 4 && AllDigits(r)
  {
    Pad2(n / 100) + Pad2(n % 100)
  }

  /** `%06d` for values below 1000000. */
  function Pad6(n: nat): (r: string)
    requires n < 1000000
    ensures |r| == 6 && AllDigits(r)
  {
    Pad2(n / 10000) + Pad2(n / 100 % 100) + Pad2(n % 100)
  }

  /** `f"{n:02d}"` for any natural number: at least two digits. */
  function Pad2AtLeast(n: nat): (r: string)
    ensures |r| >= 2 && AllDigits(r)
  {
    if n < 100 then Pad2(n) else NatToString(n)
  }

  lemma Pad2Value(n: nat)
    requires n < 100
    ensures DigitsValue(Pad2(n)) == n
  {
    var s := Pad2(n);
    assert s[..1] == [DigitChar(n / 10)];
    assert DigitsValue(s[..1]) == n / 10 by {
      assert s[..1][..0] == [];
    }
  }

  /** `sep.join(parts)`. */
  function Join(parts: seq<string>, sep: string): (r: string)
    ensures parts == [] ==> r == ""
    ensures |parts| == 1 ==> r == parts[0]
  {
    if parts == [] then "" else if |parts| == 1 then parts[0] else parts[0] + sep + Join(parts[1..], sep)
  }

  /** Lower-casing works character by character, so it distributes over concatenation. */
  lemma LowerConcat(a: string, b: string)
    ensures Lower(a + b) == Lower(a) + Lower(b)
  {
    assert forall i :: 0 <= i < |a + b| ==> Lower(a + b)[i] == (Lower(a) + Lower(b))[i];
  }

  /** Text without capital letters is its own `lower()`. */
  lemma LowerIdentity(s: string)
    requires forall i :: 0 <= i < |s| ==> !('A' <= s[i] <= 'Z')
    ensures Lower(s) == s
  {
  }

  /** Text that neither starts nor ends with whitespace is its own `strip()`. */
  lemma StripIdentity(s: string)
    requires s == [] || (!IsSpace(s[0]) && !IsSpace(s[|s| - 1]))
    ensures Strip(s) == s
  {
  }

  /** Text whose only whitespace is single blanks is its own collapse. */
  lemma {:induction false} CollapseIdentity(s: string)
    requires SingleBlanks(s)
    ensures CollapseSpaces(s) == s
    decreases |s|
  {
    if s != [] {
      var t := s[1..];
      assert forall i :: 0 <= i < |t| ==> t[i] == s[i + 1];
      CollapseIdentity(t);
      assert s == [s[0]] + t;
      if IsSpace(s[0]) {
        assert t == [] || !IsSpace(t[0]);
        CollapseBlank(t);
      } else {
        CollapseGlyph(s[0], t);
      }
    }
  }

  /** Collapsing passes a non-blank first character through. */
  lemma CollapseGlyph(c: char, t: string)
    requires !IsSpace(c)
    ensures CollapseSpaces([c] + t) == [c] + CollapseSpaces(t)
  {
    assert ([c] + t)[1..] == t;
  }

  /** A single blank before non-blank text is kept as one blank. */
  lemma CollapseBlank(t: string)
    requires t == [] || !IsSpace(t[0])
    ensures CollapseSpaces([' '] + t) == " " + CollapseSpaces(t)
  {
    var b := [' '] + t;
    assert b[1..] == t;
    assert TrimLeft(t) == t;
    assert TrimLeft(b) == t;
  }

  /** A non-blank character and one blank in front of collapsed text that starts non-blank stay as they are. */
  lemma CollapseGlyphBlank(c: char, x: string)
    requires !IsSpace(c) && x != [] && !IsSpace(x[0])
    requires CollapseSpaces(x) == x
    ensures CollapseSpaces([c, ' '] + x) == [c, ' '] + x
  {
    CollapseBlank(x);
    CollapseGlyph(c, [' '] + x);
    assert [c, ' '] + x == [c] + ([' '] + x);
  }

  /** A piece whose first character never occurs in `s` is not in `s`. */
  lemma {:induction false} FirstAbsent(s: string, sub: string)
    requires sub != [] && forall i :: 0 <= i < |s| ==> s[i] != sub[0]
    ensures !Contains(s, sub)
    decreases |s|
  {
    if s != [] {
      assert s[0] != sub[0];
      assert !StartsWith(s, sub);
      assert forall i :: 0 <= i < |s[1..]| ==> s[1..][i] == s[i + 1];
      FirstAbsent(s[1..], sub);
    }
  }

  /** Joining at least one non-empty part gives non-empty text. */
  lemma {:induction false} JoinNonEmpty(parts: seq<string>, sep: string)
    requires parts != [] && parts[0] != ""
    ensures Join(parts, sep) != ""
  {
  }

  /** Concatenation of all parts (`"".join(parts)`). */
  function Concat(parts: seq<string>): string {
    if parts == [] then "" else parts[0] + Concat(parts[1..])
  }

  lemma {:induction false} ConcatSnoc(parts: seq<string>, p: string)
    ensures Concat(parts + [p]) == Concat(parts) + p
  {
    if parts != [] {
      assert (parts + [p])[1..] == parts[1..] + [p];
      ConcatSnoc(parts[1..], p);
    }
  }

  /** Deletes every occurrence of the characters in `bad` (`re.sub("[...]", "", s)` or chained `replace(c, "")`). */
  function RemoveChars(s: string, bad: set<char>): (r: string)
    ensures |r| <= |s|
    ensures forall i :: 0 <= i < |r| ==> r[i] !in bad
    ensures forall i :: 0 <= i < |s| ==> (s[i] !in bad ==> s[i] in r)
  {
    if s == [] then "" else if s[0] in bad then RemoveChars(s[1..], bad) else [s[0]] + RemoveChars(s[1..], bad)
  }

  /** Removal only removes: every character left was in the text. */
  lemma {:induction false} RemoveCharsFrom(s: string, bad: set<char>)
    ensures forall i :: 0 <= i < |RemoveChars(s, bad)| ==> RemoveChars(s, bad)[i] in s
  {
    if s != [] {
      RemoveCharsFrom(s[1..], bad);
      var r, t := RemoveChars(s, bad), RemoveChars(s[1..], bad);
      forall i | 0 <= i < |r| ensures r[i] in s {
        if s[0] !in bad && i == 0 {
          assert r[0] == s[0];
        } else {
          var j := if s[0] in bad then i else i - 1;
          assert r[i] == t[j];
          assert t[j] in s[1..];
        }
      }
    }
  }

  lemma {:induction false} RemoveCharsConcat(a: string, b: string, bad: set<char>)
    ensures RemoveChars(a + b, bad) == RemoveChars(a, bad) + RemoveChars(b, bad)
  {
    if a == [] {
      assert a + b == b;
    } else {
      assert (a + b)[0] == a[0] && (a + b)[1..] == a[1..] + b;
      RemoveCharsConcat(a[1..], b, bad);
    }
  }

  /** Appending a piece free of removed characters appends it unchanged. */
  lemma RemoveCharsKeep(a: string, p: string, bad: set<char>)
    requires forall i :: 0 <= i < |p| ==> p[i] !in bad
    ensures RemoveChars(a + p, bad) == RemoveChars(a, bad) + p
  {
    RemoveCharsConcat(a, p, bad);
    RemoveCharsNone(p, bad);
  }

  /** Appending a removed character changes nothing. */
  lemma RemoveCharsDrop(a: string, c: char, bad: set<char>)
    requires c in bad
    ensures RemoveChars(a + [c], bad) == RemoveChars(a, bad)
  {
    RemoveCharsConcat(a, [c], bad);
    assert RemoveChars([c], bad) == RemoveChars([], bad);
  }

  lemma {:induction false} RemoveCharsNone(s: string, bad: set<char>)
    requires forall i :: 0 <= i < |s| ==> s[i] !in bad
    ensures RemoveChars(s, bad) == s
  {
    if s != [] {
      RemoveCharsNone(s[1..], bad);
    }
  }

  /** A removed character between two clean pieces just disappears. */
  lemma RemoveCharsSep(x: string, c: char, y: string, bad: set<char>)
    requires c in bad
    requires forall i :: 0 <= i < |x| ==> x[i] !in bad
    requires forall i :: 0 <= i < |y| ==> y[i] !in bad
    ensures RemoveChars(x + [c] + y, bad) == x + y
  {
    RemoveCharsConcat(x + [c], y, bad);
    RemoveCharsDrop(x, c, bad);
    RemoveCharsNone(x, bad);
    RemoveCharsNone(y, bad);
  }

  /** `s.replace(c, r)`. */
  function ReplaceChar(s: string, c: char, r: string): string {
    if s == [] then "" else (if s[0] == c then r else [s[0]]) + ReplaceChar(s[1..], c, r)
  }

  lemma {:induction false} ReplaceAbsent(s: string, c: char, r: string)
    requires c !in s
    ensures ReplaceChar(s, c, r) == s
  {
    if s != [] {
      ReplaceAbsent(s[1..], c, r);
    }
  }

  /** Every whitespace character is a blank and no two of them are adjacent. */
  ghost predicate SingleBlanks(s: string) {
    && (forall i :: 0 <= i < |s| ==> (IsSpace(s[i]) ==> s[i] == ' '))
    && (forall i, j :: 0 <= i < j < |s| && j == i + 1 ==> !(s[i] == ' ' && s[j] == ' '))
  }

  /**
   * `re.sub(r"\s+", " ", s)`: every maximal run of whitespace becomes one space, and the other
   * characters are kept in order.
   */
  function CollapseSpaces(s: string): (r: string)
    ensures |r| <= |s|
    ensures SingleBlanks(r)
    ensures NonSpace(r) == NonSpace(s)
    ensures (r != [] && r[0] == ' ') <==> (s != [] && IsSpace(s[0]))
    decreases |s|
  {
    if s == [] then ""
    else if IsSpace(s[0]) then
      var rest := TrimLeft(s);
      TrimLeftNonSpace(s);
      assert NonSpace(" " + CollapseSpaces(rest)) == NonSpace(CollapseSpaces(rest)) by {
        assert (" " + CollapseSpaces(rest))[1..] == CollapseSpaces(rest);
      }
      " " + CollapseSpaces(rest)
    else
      assert NonSpace([s[0]] + CollapseSpaces(s[1..])) == [s[0]] + NonSpace(CollapseSpaces(s[1..])) by {
        assert ([s[0]] + CollapseSpaces(s[1..]))[1..] == CollapseSpaces(s[1..]);
      }
      [s[0]] + CollapseSpaces(s[1..])
  }

  /** Cutting the whitespace off the front of `x + y` when `x` is all whitespace. */
  lemma {:induction false} TrimLeftSpacesConcat(x: string, y: string)
    requires forall k :: 0 <= k < |x| ==> IsSpace(x[k])
    ensures TrimLeft(x + y) == TrimLeft(y)
  {
    if x == [] {
      assert x + y == y;
    } else {
      assert (x + y)[0] == x[0] && (x + y)[1..] == x[1..] + y;
      TrimLeftSpacesConcat(x[1..], y);
    }
  }

  /** Cutting the whitespace off the front of `x + y` when `x` has a character at `k` that is not whitespace. */
  lemma {:induction false} TrimLeftGlyphConcat(x: string, y: string, k: nat)
    requires k < |x| && !IsSpace(x[k])
    ensures TrimLeft(x + y) == TrimLeft(x) + y
  {
    assert (x + y)[0] == x[0];
    if IsSpace(x[0]) {
      assert (x + y)[1..] == x[1..] + y;
      assert x[1..][k - 1] == x[k];
      TrimLeftGlyphConcat(x[1..], y, k - 1);
    }
  }

  /** Text that starts with whitespace collapses to a blank and the collapse of what follows the run. */
  lemma CollapseLeading(s: string)
    requires s != [] && IsSpace(s[0])
    ensures CollapseSpaces(s) == " " + CollapseSpaces(TrimLeft(s))
  {
  }

  /** A non-empty run of whitespace collapses to one blank. */
  lemma CollapseRun(w: string)
    requires w != [] && forall k :: 0 <= k < |w| ==> IsSpace(w[k])
    ensures CollapseSpaces(w) == " "
  {
    TrimLeftSpacesConcat(w, []);
    assert w + [] == w;
    CollapseLeading(w);
  }

  /** A whitespace run followed by text that starts with something else. */
  lemma CollapseRunThen(w: string, y: string)
    requires w != [] && forall k :: 0 <= k < |w| ==> IsSpace(w[k])
    requires y == [] || !IsSpace(y[0])
    ensures CollapseSpaces(w + y) == CollapseSpaces(w) + CollapseSpaces(y)
  {
    CollapseRun(w);
    TrimLeftRun(w, y);
    CollapseAfterRun(w, y);
  }

  lemma TrimLeftRun(w: string, y: string)
    requires forall k :: 0 <= k < |w| ==> IsSpace(w[k])
    requires y == [] || !IsSpace(y[0])
    ensures TrimLeft(w + y) == y
  {
    TrimLeftSpacesConcat(w, y);
  }

  lemma CollapseAfterRun(w: string, y: string)
    requires w != [] && IsSpace(w[0])
    requires TrimLeft(w + y) == y
    ensures CollapseSpaces(w + y) == " " + CollapseSpaces(y)
  {
    var wy := w + y;
    assert wy[0] == w[0];
    CollapseLeading(wy);
  }

  lemma ConcatAssoc(a: string, b: string, c: string)
    ensures a + (b + c) == (a + b) + c
  {
  }

  /** Leading whitespace before a non-blank character of `x` is cut off `x + y` as off `x`. */
  lemma CollapseLeadingConcat(x: string, y: string, k: nat)
    requires x != [] && IsSpace(x[0]) && k < |x| && !IsSpace(x[k])
    ensures CollapseSpaces(x + y) == " " + CollapseSpaces(TrimLeft(x) + y)
    ensures CollapseSpaces(x) == " " + CollapseSpaces(TrimLeft(x))
  {
    TrimLeftGlyphConcat(x, y, k);
    var xy := x + y;
    assert xy[0] == x[0];
    CollapseLeading(xy);
    CollapseLeading(x);
  }

  /**
   * Collapsing works run by run: text split where a whitespace run does not continue across the
   * cut collapses as its two pieces do.
   */
  lemma {:induction false} CollapseSplit(x: string, y: string)
    requires x == [] || y == [] || !IsSpace(x[|x| - 1]) || !IsSpace(y[0])
    ensures CollapseSpaces(x + y) == CollapseSpaces(x) + CollapseSpaces(y)
    decreases |x|
  {
    if x == [] {
      assert x + y == y;
    } else if IsSpace(x[0]) {
      if forall k :: 0 <= k < |x| ==> IsSpace(x[k]) {
        CollapseRunThen(x, y);
      } else {
        var k :| 0 <= k < |x| && !IsSpace(x[k]);
        var t := TrimLeft(x);
        TrimLeftSuffix(x);
        assert t != [] && t[|t| - 1] == x[|x| - 1];
        CollapseSplit(t, y);
        CollapseLeadingConcat(x, y, k);
        var ct, cy := CollapseSpaces(t), CollapseSpaces(y);
        assert CollapseSpaces(x + y) == " " + (ct + cy);
        assert CollapseSpaces(x) == " " + ct;
        ConcatAssoc(" ", ct, cy);
      }
    } else {
      var t := x[1..];
      assert x == [x[0]] + t && x + y == [x[0]] + (t + y);
      CollapseSplit(t, y);
      CollapseGlyph(x[0], t);
      CollapseGlyph(x[0], t + y);
      var ct, cy := CollapseSpaces(t), CollapseSpaces(y);
      assert CollapseSpaces(x + y) == [x[0]] + (ct + cy);
      assert CollapseSpaces(x) == [x[0]] + ct;
      ConcatAssoc([x[0]], ct, cy);
    }
  }

  /** Removing characters commutes with keeping the non-whitespace ones. */
  lemma {:induction false} RemoveCharsNonSpace(s: string, bad: set<char>)
    ensures NonSpace(RemoveChars(s, bad)) == RemoveChars(NonSpace(s), bad)
  {
    if s != [] {
      var c, t := s[0], s[1..];
      assert s == [c] + t;
      RemoveCharsNonSpace(t, bad);
      RemoveCharsConcat([c], t, bad);
      NonSpaceConcat([c], t);
      NonSpaceConcat(RemoveChars([c], bad), RemoveChars(t, bad));
      RemoveCharsConcat(NonSpace([c]), NonSpace(t), bad);
      assert [c][1..] == [];
      assert NonSpace(RemoveChars([c], bad)) == RemoveChars(NonSpace([c]), bad) by {
        if c in bad {
          assert RemoveChars([c], bad) == [];
        } else {
          assert RemoveChars([c], bad) == [c];
        }
        if IsSpace(c) {
          assert NonSpace([c]) == [];
        } else {
          assert NonSpace([c]) == [c];
        }
      }
    }
  }

  /** Python's `<=` on strings: lexicographic by code point, a prefix before its extensions. */
  predicate StrLe(a: string, b: string) {
    if a == [] then true
    else if b == [] then false
    else if a[0] != b[0] then a[0] < b[0]
    else StrLe(a[1..], b[1..])
  }

  lemma {:induction false} StrLeTotal(a: string, b: string)
    ensures StrLe(a, b) || StrLe(b, a)
  {
    if a != [] && b != [] && a[0] == b[0] {
      StrLeTotal(a[1..], b[1..]);
    }
  }

  lemma {:induction false} StrLeTransitive(a: string, b: string, c: string)
    requires StrLe(a, b) && StrLe(b, c)
    ensures StrLe(a, c)
  {
    if a != [] && b != [] && c != [] && a[0] == b[0] && b[0] == c[0] {
      StrLeTransitive(a[1..], b[1..], c[1..]);
    }
  }
}
