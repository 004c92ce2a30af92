/** String operations the pages use: JavaScript's `toLowerCase`, `toUpperCase`,
    `trim`, `includes`, `split`/`join`, `replace` and number-to-text printing,
    restricted to what the models need (case mapping is ASCII only). */
module Text {

  // ---------------------------------------------------------------- case

  predicate IsAsciiUpper(c: char) { 'A' <= c <= 'Z' }
  predicate IsAsciiLower(c: char) { 'a' <= c <= 'z' }

  function ToLowerChar(c: char): (r: char)
    ensures IsAsciiUpper(c) ==> IsAsciiLower(r)
    ensures !IsAsciiUpper(c) ==> r == c
  {
    if IsAsciiUpper(c) then (c as int + 32) as char else c
  }

  function ToUpperChar(c: char): (r: char)
    ensures IsAsciiLower(c) ==> IsAsciiUpper(r)
    ensures !IsAsciiLower(c) ==> r == c
  {
    if IsAsciiLower(c) then (c as int - 32) as char else c
  }

  /** `s.toLowerCase()` for ASCII letters; every other character is kept. */
  function Lower(s: string): (r: string)
    ensures |r| == |s|
    ensures forall i :: 0 <= i < |s| ==> r[i] == ToLowerChar(s[i])
  {
    if s == [] then [] else [ToLowerChar(s[0])] + Lower(s[1..])
  }

  /** Lower-casing text without capitals changes nothing. */
  lemma LowerOfLowercase(s: string)
    requires forall k :: 0 <= k < |s| ==> !IsAsciiUpper(s[k])
    ensures Lower(s) == s
  {
  }

  lemma {:induction false} LowerAppend(a: string, b: string)
    ensures Lower(a + b) == Lower(a) + Lower(b)
  {
    if a != [] {
      assert (a + b)[1..] == a[1..] + b;
      LowerAppend(a[1..], b);
    }
  }

  // ---------------------------------------------------------------- whitespace

  /** JavaScript's WhiteSpace and LineTerminator characters: the `\s` class of a
      regular expression and what `String.prototype.trim` removes. */
  predicate IsJsWhitespace(c: char)
  {
    c == '\t' || c == '\n' || c == '\U{B}' || c == '\U{C}' || c == '\r' || c == ' '
    || c == '\U{A0}' || c == '\U{1680}' || ('\U{2000}' <= c <= '\U{200A}')
    || c == '\U{2028}' || c == '\U{2029}' || c == '\U{202F}' || c == '\U{205F}'
    || c == '\U{3000}' || c == '\U{FEFF}'
  }

  predicate AllWhitespace(s: string)
  {
    forall i :: 0 <= i < |s| ==> IsJsWhitespace(s[i])
  }

  function TrimStart(s: string): (r: string)
    ensures |r| <= |s| && r == s[|s| - |r|..]
    ensures AllWhitespace(s[..|s| - |r|])
    ensures r != [] ==> !IsJsWhitespace(r[0])
  {
    if s != [] && IsJsWhitespace(s[0]) then
      var r := TrimStart(s[1..]);
      TrimStartStep(s, r);
      r
    else
      s
  }

  lemma TrimStartStep(s: string, r: string)
    requires s != [] && IsJsWhitespace(s[0])
    requires |r| <= |s| - 1 && r == s[1..][|s| - 1 - |r|..] && AllWhitespace(s[1..][..|s| - 1 - |r|])
    ensures r == s[|s| - |r|..] && AllWhitespace(s[..|s| - |r|])
  {
    assert s[1..][|s| - 1 - |r|..] == s[|s| - |r|..];
    forall k | 0 <= k < |s| - |r|
      ensures IsJsWhitespace(s[k])
    {
      if k > 0 {
        assert s[k] == s[1..][..|s| - 1 - |r|][k - 1];
      }
    }
  }

  function TrimEnd(s: string): (r: string)
    ensures |r| <= |s| && r == s[..|r|]
    ensures AllWhitespace(s[|r|..])
    ensures r != [] ==> !IsJsWhitespace(r[|r| - 1])
  {
    if s != [] && IsJsWhitespace(s[|s| - 1]) then TrimEnd(s[..|s| - 1]) else s
  }

  /** `s.trim()`: a contiguous slice of `s` with the surrounding whitespace cut off. */
  function Trim(s: string): (r: string)
    ensures exists i, j :: 0 <= i <= j <= |s| && r == s[i..j]
                           && AllWhitespace(s[..i]) && AllWhitespace(s[j..])
    ensures r != [] ==> !IsJsWhitespace(r[0]) && !IsJsWhitespace(r[|r| - 1])
    ensures r == [] <==> AllWhitespace(s)
  {
    var t := TrimStart(s);
    var u := TrimEnd(t);
    TrimSlice(s, t, u);
    u
  }

  /** How the two halves of `trim` fit together: `t` is `s` without its
      leading whitespace and `u` is `t` without its trailing whitespace. */
  lemma TrimSlice(s: string, t: string, u: string)
    requires |t| <= |s| && t == s[|s| - |t|..] && AllWhitespace(s[..|s| - |t|])
    requires t != [] ==> !IsJsWhitespace(t[0])
    requires |u| <= |t| && u == t[..|u|] && AllWhitespace(t[|u|..])
    ensures var i := |s| - |t|;
            i + |u| <= |s| && u == s[i..i + |u|]
            && AllWhitespace(s[..i]) && AllWhitespace(s[i + |u|..])
    ensures u == [] <==> AllWhitespace(s)
  {
    var i := |s| - |t|;
    assert t == s[i..];
    assert u == t[..|u|];
    assert t[..|u|] == s[i..i + |u|] by {
      forall k | 0 <= k < |u|
        ensures t[..|u|][k] == s[i..i + |u|][k]
      {
        assert t[k] == s[i + k];
      }
    }
    assert s[i + |u|..] == t[|u|..];
    if u == [] {
      AllWhitespaceConcat(s[..i], t);
      assert s == s[..i] + t;
    } else {
      assert s[i] == u[0];
    }
  }

  lemma AllWhitespaceConcat(a: string, b: string)
    requires AllWhitespace(a) && AllWhitespace(b)
    ensures AllWhitespace(a + b)
  {
    forall k | 0 <= k < |a + b|
      ensures IsJsWhitespace((a + b)[k])
    {
      if k < |a| {
        assert (a + b)[k] == a[k];
      } else {
        assert (a + b)[k] == b[k - |a|];
      }
    }
  }

  // ---------------------------------------------------------------- substring

  predicate IsPrefix(p: string, s: string)
  {
    |p| <= |s| && s[..|p|] == p
  }

  /** Declarative meaning of `s.includes(sub)`. */
  ghost predicate OccursAt(s: string, sub: string, i: int)
  {
    0 <= i && i + |sub| <= |s| && s[i..i + |sub|] == sub
  }

  /** `s.includes(sub)`, computed by trying each start position in turn. */
  function Includes(s: string, sub: string): (b: bool)
    ensures b <==> exists i :: OccursAt(s, sub, i)
    ensures sub == [] ==> b
  {
    if IsPrefix(sub, s) then
      assert OccursAt(s, sub, 0);
      true
    else if s == [] then
      assert forall i :: !OccursAt(s, sub, i);
      false
    else
      OccursAtShift(s, sub);
      Includes(s[1..], sub)
  }

  /** An occurrence not at the start of `s` is an occurrence in `s[1..]`,
      one position earlier. */
  lemma OccursAtShift(s: string, sub: string)
    requires s != [] && !IsPrefix(sub, s)
    ensures (exists i :: OccursAt(s, sub, i)) <==> exists i :: OccursAt(s[1..], sub, i)
  {
    if exists i :: OccursAt(s, sub, i) {
      var i :| OccursAt(s, sub, i);
      assert i != 0;
      assert s[1..][i - 1..i - 1 + |sub|] == s[i..i + |sub|];
      assert OccursAt(s[1..], sub, i - 1);
    }
    if exists i :: OccursAt(s[1..], sub, i) {
      var i :| OccursAt(s[1..], sub, i);
      assert s[i + 1..i + 1 + |sub|] == s[1..][i..i + |sub|];
      assert OccursAt(s, sub, i + 1);
    }
  }

  // ---------------------------------------------------------------- lengths

  /** JavaScript's `length`: the number of UTF-16 code units, so a character
      outside the Basic Multilingual Plane counts twice. */
  function Utf16Length(s: string): (n: nat)
    ensures |s| <= n <= 2 * |s|
  {
    if s == [] then 0
    else (if s[0] as int > 0xFFFF then 2 else 1) + Utf16Length(s[1..])
  }

  // ---------------------------------------------------------------- numbers as text

  predicate IsDigit(c: char) { '0' <= c <= '9' }

  predicate AllDigits(s: string)
  {
    forall i :: 0 <= i < |s| ==> IsDigit(s[i])
  }

  function DigitChar(d: nat): (c: char)
    requires d < 10
    ensures IsDigit(c)
  {
    ('0' as int + d) as char
  }

  /** The decimal text of a non-negative integer, as JavaScript prints it. */
  function NatToString(n: nat): (s: string)
    ensures s != [] && AllDigits(s)
    ensures |s| > 1 ==> s[0] != '0'
  {
    if n < 10 then [DigitChar(n)]
    else NatToString(n / 10) + [DigitChar(n % 10)]
  }

  /** The value of a string of decimal digits. */
  function DigitsValue(s: string): nat
    requires AllDigits(s)
  {
    if s == [] then 0
    else 10 * DigitsValue(s[..|s| - 1]) + (s[|s| - 1] as int - '0' as int)
  }

  lemma {:induction false} DigitsValueOfNatToString(n: nat)
    ensures DigitsValue(NatToString(n)) == n
  {
    if n >= 10 {
      var s := NatToString(n);
      assert s[..|s| - 1] == NatToString(n / 10);
      DigitsValueOfNatToString(n / 10);
    }
  }

  /** `${i}` for an integer. */
  function IntToString(i: int): (s: string)
    ensures s != []
    ensures i >= 0 <==> AllDigits(s)
  {
    if i >= 0 then NatToString(i)
    else
      var s := "-" + NatToString(-i);
      assert !IsDigit(s[0]);
      s
  }

  // ---------------------------------------------------------------- file names

  function LastIndexOf(s: string, c: char): (k: int)
    ensures -1 <= k < |s|
    ensures k >= 0 ==> s[k] == c
    ensures forall i :: k < i < |s| ==> s[i] != c
  {
    if s == [] then -1
    else if s[|s| - 1] == c then |s| - 1
    else LastIndexOf(s[..|s| - 1], c)
  }

  /** `name.split('.').pop()`: the text after the last dot, or the whole name
      when it has no dot. */
  function Extension(name: string): (ext: string)
    ensures '.' !in ext
    ensures '.' !in name ==> ext == name
    ensures '.' in name ==> exists stem :: name == stem + "." + ext
  {
    var k := LastIndexOf(name, '.');
    if k < 0 then name
    else
      assert name == name[..k] + "." + name[k + 1..];
      name[k + 1..]
  }

  /** The extension of `stem.ext` is `ext`, whatever dots the stem holds. */
  lemma ExtensionOfDotted(stem: string, ext: string)
    requires '.' !in ext
    ensures Extension(stem + "." + ext) == ext
  {
    var name := stem + "." + ext;
    var k := LastIndexOf(name, '.');
    assert name[|stem|] == '.';
    assert k == |stem|;
    assert name[k + 1..] == ext;
  }

  // ---------------------------------------------------------------- role and status labels

  function CapitalizeFirst(w: string): string
  {
    if w == [] then [] else [ToUpperChar(w[0])] + w[1..]
  }

  /** Capitalising a non-empty prefix capitalises the whole. */
  lemma CapitalizeFirstAppend(x: string, y: string)
    requires x != []
    ensures CapitalizeFirst(x + y) == CapitalizeFirst(x) + y
  {
    assert (x + y)[1..] == x[1..] + y;
    assert [ToUpperChar(x[0])] + (x[1..] + y) == [ToUpperChar(x[0])] + x[1..] + y;
  }

  function IndexOf(s: string, c: char): (k: int)
    ensures -1 <= k < |s|
    ensures k >= 0 ==> s[k] == c && c !in s[..k]
    ensures k < 0 <==> c !in s
  {
    if s == [] then -1
    else if s[0] == c then 0
    else
      var k := IndexOf(s[1..], c);
      if k < 0 then -1
      else
        assert s[..k + 1] == [s[0]] + s[1..][..k];
        k + 1
  }

  /** The first `c` in `s + [c] + t`, when `s` holds none, is the one
      placed after `s`. */
  lemma IndexOfAfter(s: string, c: char, t: string)
    requires c !in s
    ensures IndexOf(s + [c] + t, c) == |s|
  {
    var u := s + [c] + t;
    var k := IndexOf(u, c);
    assert u[|s|] == c;
    assert forall j :: 0 <= j < k ==> u[..k][j] == u[j];
    assert forall j :: 0 <= j < |s| ==> u[j] == s[j];
  }

  /** `s.split(sep)`. */
  function Split(s: string, sep: char): (parts: seq<string>)
    ensures |parts| >= 1
    ensures forall i :: 0 <= i < |parts| ==> sep !in parts[i]
    decreases |s|
  {
    var k := IndexOf(s, sep);
    if k < 0 then [s]
    else
      var rest := Split(s[k + 1..], sep);
      NoSeparatorInParts(s[..k], rest, sep);
      [s[..k]] + rest
  }

  lemma NoSeparatorInParts(head: string, rest: seq<string>, sep: char)
    requires sep !in head
    requires forall i :: 0 <= i < |rest| ==> sep !in rest[i]
    ensures forall i :: 0 <= i < |[head] + rest| ==> sep !in ([head] + rest)[i]
  {
    forall i | 0 <= i < |[head] + rest| ensures sep !in ([head] + rest)[i] {
      if i > 0 { assert ([head] + rest)[i] == rest[i - 1]; }
    }
  }

  /** `parts.join(sep)`. */
  function Join(parts: seq<string>, sep: char): string
  {
    if parts == [] then []
    else if |parts| == 1 then parts[0]
    else parts[0] + [sep] + Join(parts[1..], sep)
  }

  function MapCapitalize(parts: seq<string>): (r: seq<string>)
    ensures |r| == |parts|
  {
    if parts == [] then [] else [CapitalizeFirst(parts[0])] + MapCapitalize(parts[1..])
  }

  /** `s.split('_').map(w => w.charAt(0).toUpperCase() + w.slice(1)).join(' ')`. */
  function SplitCapitalizeJoin(s: string): string
  {
    Join(MapCapitalize(Split(s, '_')), ' ')
  }

  /** Independent character-by-character reading of the same transform: every
      underscore becomes a space, and the first character of each
      underscore-separated word is upper-cased. */
  function WordsCapitalized(s: string, atStart: bool): (r: string)
    ensures |r| == |s|
  {
    if s == [] then []
    else if s[0] == '_' then [' '] + WordsCapitalized(s[1..], true)
    else [if atStart then ToUpperChar(s[0]) else s[0]] + WordsCapitalized(s[1..], false)
  }

  lemma {:induction false} WordsCapitalizedWord(w: string, rest: string, atStart: bool)
    requires '_' !in w
    ensures WordsCapitalized(w + rest, atStart)
            == (if atStart then CapitalizeFirst(w) else w) + WordsCapitalized(rest, atStart && w == [])
  {
    if w != [] {
      var t, v := w + rest, w[1..];
      assert t[0] == w[0] && t[1..] == v + rest;
      assert w[0] in w && '_' !in v;
      WordsCapitalizedWord(v, rest, false);
      var head := if atStart then ToUpperChar(w[0]) else w[0];
      var tail := WordsCapitalized(rest, false);
      assert WordsCapitalized(t, atStart) == [head] + (v + tail);
      assert (if atStart then CapitalizeFirst(w) else w) == [head] + v;
      assert [head] + (v + tail) == [head] + v + tail;
    } else {
      var whole := WordsCapitalized(rest, atStart);
      assert w + rest == rest;
      assert (if atStart then CapitalizeFirst(w) else w) == [];
      assert [] + whole == whole;
    }
  }

  /** The character-wise reading works piece by piece: the second piece
      starts a word exactly when the first is empty and we were at a word
      start, or the first ends in an underscore. */
  lemma {:induction false} WordsCapitalizedAppend(a: string, b: string, atStart: bool)
    ensures WordsCapitalized(a + b, atStart)
            == WordsCapitalized(a, atStart) + WordsCapitalized(b, if a == [] then atStart else a[|a| - 1] == '_')
  {
    if a == [] {
      assert a + b == b;
    } else {
      assert (a + b)[0] == a[0];
      assert (a + b)[1..] == a[1..] + b;
      WordsCapitalizedAppend(a[1..], b, a[0] == '_');
    }
  }

  /** The split/map/join pipeline and the character-wise reading agree. */
  lemma {:induction false} SplitCapitalizeJoinCharwise(s: string)
    ensures SplitCapitalizeJoin(s) == WordsCapitalized(s, true)
    decreases |s|
  {
    var k := IndexOf(s, '_');
    if k < 0 {
      assert s + [] == s;
      WordsCapitalizedWord(s, [], true);
    } else {
      SplitCapitalizeJoinStep(s, k);
      WordsCapitalizedStep(s, k);
      SplitCapitalizeJoinCharwise(s[k + 1..]);
    }
  }

  /** The pipeline on text with an underscore: the first word capitalised,
      a space, and the pipeline on the rest. */
  lemma SplitCapitalizeJoinStep(s: string, k: int)
    requires 0 <= k < |s| && k == IndexOf(s, '_')
    ensures SplitCapitalizeJoin(s) == CapitalizeFirst(s[..k]) + " " + SplitCapitalizeJoin(s[k + 1..])
  {
    var w, tail := s[..k], Split(s[k + 1..], '_');
    assert Split(s, '_') == [w] + tail;
    var m := [CapitalizeFirst(w)] + MapCapitalize(tail);
    assert MapCapitalize([w] + tail) == m;
    assert |m| >= 2 && m[0] == CapitalizeFirst(w) && m[1..] == MapCapitalize(tail);
    assert Join(m, ' ') == m[0] + [' '] + Join(m[1..], ' ');
  }

  /** The character-wise reading at the first underscore. */
  lemma WordsCapitalizedStep(s: string, k: int)
    requires 0 <= k < |s| && s[k] == '_' && '_' !in s[..k]
    ensures WordsCapitalized(s, true) == CapitalizeFirst(s[..k]) + " " + WordsCapitalized(s[k + 1..], true)
  {
    var w, rest := s[..k], s[k + 1..];
    var t := "_" + rest;
    SplitAtUnderscore(s, k);
    WordsCapitalizedWord(w, t, true);
    var tail := WordsCapitalized(rest, true);
    assert WordsCapitalized(t, w == []) == " " + tail by {
      assert t[0] == '_' && t[1..] == rest;
    }
    assert CapitalizeFirst(w) + " " + tail == CapitalizeFirst(w) + (" " + tail);
  }

  lemma SplitAtUnderscore(s: string, k: int)
    requires 0 <= k < |s| && s[k] == '_'
    ensures s == s[..k] + ("_" + s[k + 1..])
  {
    assert s[k..] == [s[k]] + s[k + 1..];
    assert s == s[..k] + s[k..];
  }

  /** `s.replace('_', ' ')` with a string pattern: only the first underscore is replaced. */
  function ReplaceFirstUnderscore(s: string): (r: string)
    ensures |r| == |s|
    ensures '_' !in s ==> r == s
    ensures '_' in s ==> exists k :: 0 <= k < |s| && s[k] == '_' && '_' !in s[..k]
                                    && r == s[..k] + " " + s[k + 1..]
  {
    var k := IndexOf(s, '_');
    if k < 0 then s else s[..k] + " " + s[k + 1..]
  }

  /** A character of the regular-expression class `\w`. */
  predicate IsWordChar(c: char)
  {
    IsAsciiUpper(c) || IsAsciiLower(c) || IsDigit(c) || c == '_'
  }

  /** `s.replace(/\b\w/g, l => l.toUpperCase())`, scanning left to right with
      whether the previous character was a word character. */
  function UpperWordStarts(s: string, afterWord: bool): (r: string)
    ensures |r| == |s|
  {
    if s == [] then []
    else
      [if IsWordChar(s[0]) && !afterWord then ToUpperChar(s[0]) else s[0]]
      + UpperWordStarts(s[1..], IsWordChar(s[0]))
  }

  lemma {:induction false} UpperWordStartsAppend(x: string, y: string, afterWord: bool)
    ensures UpperWordStarts(x + y, afterWord)
            == UpperWordStarts(x, afterWord) + UpperWordStarts(y, if x == [] then afterWord else IsWordChar(x[|x| - 1]))
  {
    if x == [] {
      assert x + y == y;
    } else {
      assert (x + y)[0] == x[0];
      assert (x + y)[1..] == x[1..] + y;
      UpperWordStartsAppend(x[1..], y, IsWordChar(x[0]));
    }
  }

  /** Inside a word nothing is upper-cased; at its start only the first
      character is. */
  lemma {:induction false} UpperWordStartsOfWord(w: string)
    requires forall i :: 0 <= i < |w| ==> IsWordChar(w[i])
    ensures UpperWordStarts(w, true) == w
    ensures UpperWordStarts(w, false) == CapitalizeFirst(w)
  {
    if w != [] {
      UpperWordStartsOfWord(w[1..]);
    }
  }

  /** A word boundary before position `i` followed by a word character. */
  predicate WordStartAt(s: string, i: int)
    requires 0 <= i < |s|
  {
    IsWordChar(s[i]) && (i == 0 || !IsWordChar(s[i - 1]))
  }

  lemma {:induction false} UpperWordStartsAt(s: string, afterWord: bool, i: int)
    requires 0 <= i < |s|
    ensures UpperWordStarts(s, afterWord)[i]
            == if IsWordChar(s[i]) && (if i == 0 then !afterWord else !IsWordChar(s[i - 1]))
               then ToUpperChar(s[i]) else s[i]
  {
    if i > 0 {
      UpperWordStartsAt(s[1..], IsWordChar(s[0]), i - 1);
    }
  }

  /** The label transform of task lists and the workforce hook: replace the
      first underscore by a space, then upper-case every character that starts
      a `\w` word. */
  function FirstUnderscoreLabel(s: string): (r: string)
    ensures |r| == |s|
  {
    UpperWordStarts(ReplaceFirstUnderscore(s), false)
  }

  /** Character by character: after the first underscore is replaced, each
      character that starts a word is upper-cased and every other is kept. */
  lemma FirstUnderscoreLabelAt(s: string, i: int)
    requires 0 <= i < |s|
    ensures var t := ReplaceFirstUnderscore(s);
            FirstUnderscoreLabel(s)[i] == if WordStartAt(t, i) then ToUpperChar(t[i]) else t[i]
  {
    UpperWordStartsAt(ReplaceFirstUnderscore(s), false, i);
  }

  /** A non-empty run of lower-case ASCII letters. */
  predicate LowerWord(w: string)
  {
    w != [] && forall i :: 0 <= i < |w| ==> IsAsciiLower(w[i])
  }

  /** Every character is a `\w` character. */
  predicate WordChars(w: string)
  {
    forall i :: 0 <= i < |w| ==> IsWordChar(w[i])
  }

  /** A lower-case word, an underscore and a run of word characters, as in
      `in_progress`, read as two capitalised words: "In Progress". */
  lemma FirstUnderscoreLabelTwoWords(a: string, b: string)
    requires LowerWord(a) && WordChars(b)
    ensures FirstUnderscoreLabel(a + "_" + b) == CapitalizeFirst(a) + " " + CapitalizeFirst(b)
  {
    var s := a + "_" + b;
    assert s == a + ['_'] + b;
    IndexOfAfter(a, '_', b);
    JoinParts(a, b);
    var t := ReplaceFirstUnderscore(s);
    assert t == a + " " + b;
    assert a + " " + b == a + (" " + b);
    UpperWordStartsAppend(a, " " + b, false);
    assert (" " + b)[1..] == b;
    UpperWordStartsOfWord(a);
    UpperWordStartsOfWord(b);
  }

  /** A lower-case word without underscore is just capitalised. */
  lemma FirstUnderscoreLabelOneWord(a: string)
    requires LowerWord(a)
    ensures FirstUnderscoreLabel(a) == CapitalizeFirst(a)
  {
    UpperWordStartsOfWord(a);
  }

  lemma CapitalizedWord(w: string)
    requires LowerWord(w)
    ensures WordsCapitalized(w, true) == CapitalizeFirst(w)
  {
    assert '_' !in w;
    assert w + [] == w;
    WordsCapitalizedWord(w, [], true);
  }

  lemma WordsCapitalizedTwoWords(a: string, b: string)
    requires LowerWord(a) && LowerWord(b)
    ensures WordsCapitalized(a + "_" + b, true) == CapitalizeFirst(a) + " " + CapitalizeFirst(b)
  {
    assert a + "_" + b == a + ("_" + b);
    WordsCapitalizedAppend(a, "_" + b, true);
    assert ("_" + b)[1..] == b;
    CapitalizedWord(a);
    CapitalizedWord(b);
  }

  /** The two label transforms, first-underscore-then-word-starts and
      split-capitalise-join, agree on two-word names such as `in_progress` or
      `project_manager`... */
  lemma LabelsAgreeOnTwoWords(a: string, b: string)
    requires LowerWord(a) && LowerWord(b)
    ensures FirstUnderscoreLabel(a + "_" + b) == WordsCapitalized(a + "_" + b, true)
  {
    FirstUnderscoreLabelTwoWords(a, b);
    WordsCapitalizedTwoWords(a, b);
  }

  /** With three lower-case words only the first underscore becomes a
      space, and the third word stays as it is. */
  lemma FirstUnderscoreLabelThreeWords(a: string, b: string, c: string)
    requires LowerWord(a) && LowerWord(b) && LowerWord(c)
    ensures FirstUnderscoreLabel(a + "_" + b + "_" + c) == CapitalizeFirst(a) + " " + (CapitalizeFirst(b) + "_" + c)
  {
    var rest := b + "_" + c;
    assert a + "_" + b + "_" + c == a + "_" + rest;
    forall i | 0 <= i < |rest| ensures IsWordChar(rest[i]) {
      if i > |b| { assert rest[i] == c[i - |b| - 1]; }
    }
    CapitalizeFirstAppend(b, "_");
    CapitalizeFirstAppend(b + "_", c);
    FirstUnderscoreLabelTwoWords(a, rest);
  }

  lemma WordsCapitalizedThreeWords(a: string, b: string, c: string)
    requires LowerWord(a) && LowerWord(b) && LowerWord(c)
    ensures WordsCapitalized(a + "_" + b + "_" + c, true)
            == CapitalizeFirst(a) + " " + (CapitalizeFirst(b) + " " + CapitalizeFirst(c))
  {
    var s, m := a + "_" + b + "_" + c, b + "_" + c;
    JoinRegroup(a, b, c);
    JoinParts(a, m);
    WordsCapitalizedStep(s, |a|);
    WordsCapitalizedTwoWords(b, c);
  }

  lemma JoinRegroup(a: string, b: string, c: string)
    ensures a + "_" + b + "_" + c == a + "_" + (b + "_" + c)
  {
  }

  /** The pieces of `a` joined to `m` by an underscore. */
  lemma JoinParts(a: string, m: string)
    ensures var t := a + "_" + m;
            t[..|a|] == a && t[|a|] == '_' && t[|a| + 1..] == m
  {
  }

  /** ...but differ once a name has a second underscore: the first transform
      keeps it, the second turns it into a space as well. */
  lemma LabelsDifferOnThreeWords(a: string, b: string, c: string)
    requires LowerWord(a) && LowerWord(b) && LowerWord(c)
    ensures FirstUnderscoreLabel(a + "_" + b + "_" + c) == CapitalizeFirst(a) + " " + (CapitalizeFirst(b) + "_" + c)
    ensures WordsCapitalized(a + "_" + b + "_" + c, true)
            == CapitalizeFirst(a) + " " + (CapitalizeFirst(b) + " " + CapitalizeFirst(c))
    ensures FirstUnderscoreLabel(a + "_" + b + "_" + c) != WordsCapitalized(a + "_" + b + "_" + c, true)
  {
    var p := CapitalizeFirst(a) + " ";
    var x, y := CapitalizeFirst(b) + "_" + c, CapitalizeFirst(b) + " " + CapitalizeFirst(c);
    assert |CapitalizeFirst(b)| == |b|;
    assert x[|b|] == '_' && y[|b|] == ' ';
    assert (p + x)[|p| + |b|] != (p + y)[|p| + |b|];
    FirstUnderscoreLabelThreeWords(a, b, c);
    WordsCapitalizedThreeWords(a, b, c);
  }
}
