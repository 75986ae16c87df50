/**
 * The JavaScript string operations that `BrCode` (src/models/BrCode.ts) is built from,
 * over Dafny strings (`seq<char>`, one `char` per Unicode scalar value):
 * `replace(/\D/g, '')`, `trim()`, `replace(<literal>, <literal>)` (first occurrence only),
 * `toLowerCase()`, `normalize("NFD")` and the combining-mark filter of `format_text`.
 */
module Text {

  import opened Wrappers

  // ------------------------------------------------------------------
  // Digits: `s.replace(/\D/g, '')`
  // ------------------------------------------------------------------

  /** The regular-expression class `\d`: the ASCII decimal digits only. */
  predicate IsDigit(c: char) {
    '0' <= c <= '9'
  }

  predicate AllDigits(s: string) {
    forall i :: 0 <= i < |s| ==> IsDigit(s[i])
  }

  /** Deletes every character that is not an ASCII digit (`\D` with the global flag). */
  function Digits(s: string): (r: string)
    ensures AllDigits(r)
    ensures |r| <= |s|
  {
    if s == [] then []
    else if IsDigit(s[0]) then [s[0]] + Digits(s[1..])
    else Digits(s[1..])
  }

  /** Every digit of `s` is kept, as often as it occurs in `s`. */
  lemma {:induction false} DigitsKeepsEveryDigit(s: string)
    ensures forall c :: IsDigit(c) ==> multiset(Digits(s))[c] == multiset(s)[c]
  {
    if s != [] {
      DigitsKeepsEveryDigit(s[1..]);
      assert s == [s[0]] + s[1..];
    }
  }

  /** A string made only of digits is left as it is. */
  lemma {:induction false} DigitsOfAllDigits(s: string)
    requires AllDigits(s)
    ensures Digits(s) == s
  {
    if s != [] {
      DigitsOfAllDigits(s[1..]);
    }
  }

  /** Filtering distributes over concatenation, so the digits keep their original order. */
  lemma {:induction false} DigitsOfConcat(a: string, b: string)
    ensures Digits(a + b) == Digits(a) + Digits(b)
  {
    if a == [] {
      assert a + b == b;
    } else {
      assert (a + b)[0] == a[0];
      assert (a + b)[1..] == a[1..] + b;
      DigitsOfConcat(a[1..], b);
    }
  }

  // ------------------------------------------------------------------
  // Whitespace and `trim()`
  // ------------------------------------------------------------------

  /**
   * ECMAScript WhiteSpace and LineTerminator code points, the set `String.prototype.trim`
   * removes: TAB, LF, VT, FF, CR, SPACE, NBSP, OGHAM SPACE MARK, U+2000..U+200A,
   * LINE SEPARATOR, PARAGRAPH SEPARATOR, NNBSP, MMSP, IDEOGRAPHIC SPACE and the BOM.
   */
  predicate IsWhitespace(c: char) {
    || c == '\t' || c == '\n' || c == '\U{0B}' || c == '\U{0C}' || c == '\r'
    || c == ' ' || c == '\U{A0}' || c == '\U{1680}'
    || ('\U{2000}' <= c <= '\U{200A}')
    || c == '\U{2028}' || c == '\U{2029}' || c == '\U{202F}' || c == '\U{205F}'
    || c == '\U{3000}' || c == '\U{FEFF}'
  }

  /** Neither the first nor the last character is whitespace. */
  predicate Trimmed(s: string) {
    s == [] || (!IsWhitespace(s[0]) && !IsWhitespace(s[|s| - 1]))
  }

  /** Drops the whitespace prefix: the result is a suffix of `s` that does not start with whitespace. */
  function TrimStart(s: string): (r: string)
    ensures |r| <= |s| && r == s[|s| - |r|..]
    ensures r == [] || !IsWhitespace(r[0])
  {
    if s != [] && IsWhitespace(s[0]) then TrimStart(s[1..]) else s
  }

  /** Drops the whitespace suffix: the result is a prefix of `s` that does not end with whitespace. */
  function TrimEnd(s: string): (r: string)
    ensures |r| <= |s| && r == s[..|r|]
    ensures r == [] || !IsWhitespace(r[|r| - 1])
  {
    if s != [] && IsWhitespace(s[|s| - 1]) then TrimEnd(s[..|s| - 1]) else s
  }

  /** Only whitespace is dropped from the front. */
  lemma {:induction false} TrimStartDropsWhitespace(s: string)
    ensures forall i :: 0 <= i < |s| - |TrimStart(s)| ==> IsWhitespace(s[i])
  {
    if s != [] && IsWhitespace(s[0]) {
      TrimStartDropsWhitespace(s[1..]);
    }
  }

  /** Only whitespace is dropped from the back. */
  lemma {:induction false} TrimEndDropsWhitespace(s: string)
    ensures forall i :: |TrimEnd(s)| <= i < |s| ==> IsWhitespace(s[i])
  {
    if s != [] && IsWhitespace(s[|s| - 1]) {
      TrimEndDropsWhitespace(s[..|s| - 1]);
    }
  }

  /** `String.prototype.trim`: strips the leading and the trailing whitespace. */
  function Trim(s: string): (r: string)
    ensures Trimmed(r)
    ensures |r| <= |s|
    ensures Trimmed(s) ==> r == s
  {
    var t := TrimStart(s);
    var r := TrimEnd(t);
    assert r != [] ==> r[0] == t[0];
    r
  }

  /** Trimming keeps only characters of `s`. */
  lemma TrimKeeps(s: string)
    ensures forall c :: c in Trim(s) ==> c in s
  {
    var t := TrimStart(s);
    assert forall c :: c in Trim(s) ==> c in t;
  }

  // ------------------------------------------------------------------
  // Literal replacement: `s.replace(pat, rep)` with a string pattern
  // ------------------------------------------------------------------

  /** `pat` occurs in `s` starting at index `i`. */
  predicate OccursAt(s: string, pat: string, i: int) {
    0 <= i && i + |pat| <= |s| && s[i..i + |pat|] == pat
  }

  /**
   * `s.replace(pat, rep)` where `pat` is a string: only the first (leftmost) occurrence of `pat`
   * is replaced; the replacements used in BrCode contain no `$`, so `rep` is inserted verbatim.
   */
  function ReplaceFirst(s: string, pat: string, rep: string): (r: string)
    ensures |rep| <= |pat| ==> |r| <= |s|
    ensures |rep| == |pat| ==> |r| == |s|
    decreases |s|
  {
    if |s| < |pat| then s
    else if s[..|pat|] == pat then rep + s[|pat|..]
    else [s[0]] + ReplaceFirst(s[1..], pat, rep)
  }

  /** The index of the leftmost occurrence of `pat` in `s` (`s.indexOf(pat)`), if there is one. */
  function IndexOf(s: string, pat: string): (r: Option<nat>)
    ensures r.Some? ==> OccursAt(s, pat, r.value)
    ensures r.Some? ==> forall j :: 0 <= j < r.value ==> !OccursAt(s, pat, j)
    ensures r.None? ==> forall i :: !OccursAt(s, pat, i)
    decreases |s|
  {
    if |s| < |pat| then None
    else if s[..|pat|] == pat then Some(0)
    else
      match IndexOf(s[1..], pat)
      case None =>
        assert forall i: nat :: !OccursAt(s, pat, i) by {
          forall i: nat ensures !OccursAt(s, pat, i) {
            if i > 0 { OccursAtTail(s, pat, i - 1); }
          }
        }
        None
      case Some(k) =>
        OccursAtTail(s, pat, k);
        assert forall j :: 0 <= j < k + 1 ==> !OccursAt(s, pat, j) by {
          forall j | 0 < j < k + 1 ensures !OccursAt(s, pat, j) {
            OccursAtTail(s, pat, j - 1);
          }
        }
        Some(k + 1)
  }

  /**
   * `replace` as `indexOf` describes it: the text before the leftmost occurrence, then `rep`,
   * then the text after it; `s` itself when there is no occurrence.
   */
  lemma ReplaceFirstByIndexOf(s: string, pat: string, rep: string)
    ensures ReplaceFirst(s, pat, rep) ==
      match IndexOf(s, pat)
      case None => s
      case Some(i) => s[..i] + rep + s[i + |pat|..]
  {
    match IndexOf(s, pat)
    case None => ReplaceFirstAbsent(s, pat, rep);
    case Some(i) => ReplaceFirstAtFirstOccurrence(s, pat, rep, i);
  }

  /**
   * Deleting the first space of a trimmed text: that space is an inner one, so the text stays
   * trimmed, loses exactly one character, and gains no combining mark.
   */
  lemma DeleteFirstSpaceOfTrimmed(t: string)
    requires Trimmed(t) && NoMarks(t)
    ensures var r := ReplaceFirst(t, " ", "");
      && Trimmed(r) && NoMarks(r)
      && |r| == |t| - (if IndexOf(t, " ").Some? then 1 else 0)
      && (IndexOf(t, " ").None? ==> r == t)
      && (IndexOf(t, " ").Some? ==> r == t[..IndexOf(t, " ").value] + t[IndexOf(t, " ").value + 1..])
  {
    ReplaceFirstByIndexOf(t, " ", "");
    match IndexOf(t, " ")
    case None =>
    case Some(i) =>
      assert t[i..i + 1] == " ";
      assert IsWhitespace(t[i]);
      var r := t[..i] + t[i + 1..];
      assert ReplaceFirst(t, " ", "") == r;
      assert 0 < i < |t| - 1;
      assert r[0] == t[0] && r[|r| - 1] == t[|t| - 1];
      assert forall c :: c in r ==> c in t;
  }

  /** When `pat` does not occur in `s`, `replace` returns `s` unchanged. */
  lemma {:induction false} ReplaceFirstAbsent(s: string, pat: string, rep: string)
    requires forall i :: !OccursAt(s, pat, i)
    ensures ReplaceFirst(s, pat, rep) == s
    decreases |s|
  {
    if |s| >= |pat| {
      assert !OccursAt(s, pat, 0);
      forall i: nat ensures !OccursAt(s[1..], pat, i) {
        OccursAtTail(s, pat, i);
      }
      ReplaceFirstAbsent(s[1..], pat, rep);
    }
  }

  /** An occurrence in the tail of `s` is an occurrence in `s`, one position further on. */
  lemma OccursAtTail(s: string, pat: string, j: nat)
    requires s != []
    ensures OccursAt(s[1..], pat, j) <==> OccursAt(s, pat, j + 1)
  {
    if j + |pat| <= |s| - 1 {
      assert s[1..][j..j + |pat|] == s[j + 1..j + 1 + |pat|];
    }
  }

  /** When the leftmost occurrence of `pat` starts at `i`, exactly that occurrence becomes `rep`. */
  lemma {:induction false} ReplaceFirstAtFirstOccurrence(s: string, pat: string, rep: string, i: nat)
    requires OccursAt(s, pat, i)
    requires forall j :: 0 <= j < i ==> !OccursAt(s, pat, j)
    ensures ReplaceFirst(s, pat, rep) == s[..i] + rep + s[i + |pat|..]
    decreases i
  {
    if i == 0 {
      assert s[..|pat|] == pat;
      assert ReplaceFirst(s, pat, rep) == rep + s[|pat|..];
    } else {
      var tail := s[1..];
      assert ReplaceFirst(s, pat, rep) == [s[0]] + ReplaceFirst(tail, pat, rep) by {
        assert !OccursAt(s, pat, 0);
        assert |s| >= |pat| && s[..|pat|] != pat;
      }
      assert OccursAt(tail, pat, i - 1) by {
        OccursAtTail(s, pat, i - 1);
      }
      assert forall j :: 0 <= j < i - 1 ==> !OccursAt(tail, pat, j) by {
        forall j | 0 <= j < i - 1 ensures !OccursAt(tail, pat, j) {
          OccursAtTail(s, pat, j);
        }
      }
      ReplaceFirstAtFirstOccurrence(tail, pat, rep, i - 1);
      assert s[..i] == [s[0]] + tail[..i - 1];
      assert s[i + |pat|..] == tail[i - 1 + |pat|..];
    }
  }

  /** A one-character pattern is replaced where it first occurs, after a text without it. */
  lemma ReplaceCharAfter(a: string, c: char, rep: string, b: string)
    requires c !in a
    ensures ReplaceFirst(a + [c] + b, [c], rep) == a + rep + b
  {
    var s := a + [c] + b;
    assert s[|a|..|a| + 1] == [c];
    forall j | 0 <= j < |a| ensures !OccursAt(s, [c], j) {
      assert s[j] == a[j];
    }
    ReplaceFirstAtFirstOccurrence(s, [c], rep, |a|);
    assert s[..|a|] == a && s[|a| + 1..] == b;
  }

  /** A pattern whose first character does not occur in `s` leaves `s` unchanged. */
  lemma ReplaceAbsentHead(s: string, pat: string, rep: string)
    requires pat != [] && pat[0] !in s
    ensures ReplaceFirst(s, pat, rep) == s
  {
    forall i | 0 <= i < |s| ensures !OccursAt(s, pat, i) {
      assert s[i] != pat[0];
    }
    ReplaceFirstAbsent(s, pat, rep);
  }

  // ------------------------------------------------------------------
  // `toLowerCase()`
  // ------------------------------------------------------------------

  /** Lower-cases the ASCII letters A-Z and leaves every other character as it is. */
  function ToLower(s: string): (r: string)
    ensures |r| == |s|
  {
    if s == [] then []
    else [if 'A' <= s[0] <= 'Z' then s[0] - 'A' + 'a' else s[0]] + ToLower(s[1..])
  }

  /** Character by character: an upper-case ASCII letter becomes its lower-case letter, anything else stays. */
  lemma {:induction false} ToLowerCharwise(s: string)
    ensures forall i :: 0 <= i < |s| ==>
      ToLower(s)[i] == if 'A' <= s[i] <= 'Z' then s[i] - 'A' + 'a' else s[i]
  {
    if s != [] {
      ToLowerCharwise(s[1..]);
      forall i | 1 <= i < |s|
        ensures ToLower(s)[i] == if 'A' <= s[i] <= 'Z' then s[i] - 'A' + 'a' else s[i]
      {
        assert ToLower(s)[i] == ToLower(s[1..])[i - 1];
      }
    }
  }

  /** Lower-casing twice is lower-casing once. */
  lemma ToLowerIdempotent(s: string)
    ensures ToLower(ToLower(s)) == ToLower(s)
  {
    var t := ToLower(s);
    ToLowerCharwise(s);
    ToLowerCharwise(t);
    assert forall i :: 0 <= i < |t| ==> ToLower(t)[i] == t[i];
  }

  // ------------------------------------------------------------------
  // `normalize("NFD")` and the combining-mark filter
  // ------------------------------------------------------------------

  /** The class `[\u0300-\u036f]` of `format_text`: the Combining Diacritical Marks block. */
  predicate IsCombiningMark(c: char) {
    '\U{0300}' <= c <= '\U{036F}'
  }

  /**
   * The canonical decompositions of the precomposed letters of the Latin-1 Supplement block
   * (U+00C0..U+00FF) into an ASCII base letter and one combining mark, as in the Unicode
   * Character Database. `None` for every character this table does not decompose.
   */
  function Decomposition(c: char): (r: Option<(char, char)>)
    ensures r.Some? ==> ('A' <= r.value.0 <= 'Z' || 'a' <= r.value.0 <= 'z') && IsCombiningMark(r.value.1)
  {
    match c
    case 'À' => Some(('A', '\U{0300}'))
    case 'Á' => Some(('A', '\U{0301}'))
    case 'Â' => Some(('A', '\U{0302}'))
    case 'Ã' => Some(('A', '\U{0303}'))
    case 'Ä' => Some(('A', '\U{0308}'))
    case 'Å' => Some(('A', '\U{030A}'))
    case 'Ç' => Some(('C', '\U{0327}'))
    case 'È' => Some(('E', '\U{0300}'))
    case 'É' => Some(('E', '\U{0301}'))
    case 'Ê' => Some(('E', '\U{0302}'))
    case 'Ë' => Some(('E', '\U{0308}'))
    case 'Ì' => Some(('I', '\U{0300}'))
    case 'Í' => Some(('I', '\U{0301}'))
    case 'Î' => Some(('I', '\U{0302}'))
    case 'Ï' => Some(('I', '\U{0308}'))
    case 'Ñ' => Some(('N', '\U{0303}'))
    case 'Ò' => Some(('O', '\U{0300}'))
    case 'Ó' => Some(('O', '\U{0301}'))
    case 'Ô' => Some(('O', '\U{0302}'))
    case 'Õ' => Some(('O', '\U{0303}'))
    case 'Ö' => Some(('O', '\U{0308}'))
    case 'Ù' => Some(('U', '\U{0300}'))
    case 'Ú' => Some(('U', '\U{0301}'))
    case 'Û' => Some(('U', '\U{0302}'))
    case 'Ü' => Some(('U', '\U{0308}'))
    case 'Ý' => Some(('Y', '\U{0301}'))
    case 'à' => Some(('a', '\U{0300}'))
    case 'á' => Some(('a', '\U{0301}'))
    case 'â' => Some(('a', '\U{0302}'))
    case 'ã' => Some(('a', '\U{0303}'))
    case 'ä' => Some(('a', '\U{0308}'))
    case 'å' => Some(('a', '\U{030A}'))
    case 'ç' => Some(('c', '\U{0327}'))
    case 'è' => Some(('e', '\U{0300}'))
    case 'é' => Some(('e', '\U{0301}'))
    case 'ê' => Some(('e', '\U{0302}'))
    case 'ë' => Some(('e', '\U{0308}'))
    case 'ì' => Some(('i', '\U{0300}'))
    case 'í' => Some(('i', '\U{0301}'))
    case 'î' => Some(('i', '\U{0302}'))
    case 'ï' => Some(('i', '\U{0308}'))
    case 'ñ' => Some(('n', '\U{0303}'))
    case 'ò' => Some(('o', '\U{0300}'))
    case 'ó' => Some(('o', '\U{0301}'))
    case 'ô' => Some(('o', '\U{0302}'))
    case 'õ' => Some(('o', '\U{0303}'))
    case 'ö' => Some(('o', '\U{0308}'))
    case 'ù' => Some(('u', '\U{0300}'))
    case 'ú' => Some(('u', '\U{0301}'))
    case 'û' => Some(('u', '\U{0302}'))
    case 'ü' => Some(('u', '\U{0308}'))
    case 'ý' => Some(('y', '\U{0301}'))
    case 'ÿ' => Some(('y', '\U{0308}'))
    case _ => None
  }

  predicate Decomposable(c: char) {
    Decomposition(c).Some?
  }

  /** Every entry of the table lies in U+00C0..U+00FF, so ASCII letters and combining marks are final. */
  lemma NotDecomposableBelowLatin1(c: char)
    requires c < '\U{C0}' || IsCombiningMark(c)
    ensures !Decomposable(c)
  {
  }

  /** The decomposition of one character. */
  function Decompose(c: char): (d: string)
    ensures Decomposable(c) ==> |d| == 2 && !Decomposable(d[0]) && !Decomposable(d[1])
    ensures !Decomposable(c) ==> d == [c]
  {
    match Decomposition(c)
    case Some((base, mark)) =>
      NotDecomposableBelowLatin1(base);
      NotDecomposableBelowLatin1(mark);
      [base, mark]
    case None => [c]
  }

  /** `normalize("NFD")`, restricted to the decompositions of the table above. */
  function Nfd(s: string): (r: string)
    ensures |s| <= |r| <= 2 * |s|
  {
    if s == [] then [] else Decompose(s[0]) + Nfd(s[1..])
  }

  predicate FullyDecomposed(s: string) {
    forall c :: c in s ==> !Decomposable(c)
  }

  /** After NFD no character is left that the table would decompose further. */
  lemma {:induction false} NfdFullyDecomposed(s: string)
    ensures FullyDecomposed(Nfd(s))
  {
    if s != [] {
      NfdFullyDecomposed(s[1..]);
      var d, rest := Decompose(s[0]), Nfd(s[1..]);
      assert Nfd(s) == d + rest;
      forall c | c in d + rest ensures !Decomposable(c) {
        assert c in d || c in rest;
        if c in d {
          if Decomposable(s[0]) { assert c == d[0] || c == d[1]; } else { assert c == s[0]; }
        }
      }
    }
  }

  /** NFD leaves an already decomposed string unchanged. */
  lemma {:induction false} NfdOfFullyDecomposed(s: string)
    requires FullyDecomposed(s)
    ensures Nfd(s) == s
  {
    if s != [] {
      NfdOfFullyDecomposed(s[1..]);
    }
  }

  /** `replace(/[\u0300-\u036f]/g, "")`: deletes every combining mark and keeps the rest in order. */
  function StripMarks(s: string): (r: string)
    ensures |r| <= |s|
  {
    if s == [] then []
    else if IsCombiningMark(s[0]) then StripMarks(s[1..])
    else [s[0]] + StripMarks(s[1..])
  }

  /** Text without any character of the Combining Diacritical Marks block. */
  predicate NoMarks(s: string) {
    forall c :: c in s ==> !IsCombiningMark(c)
  }

  /** Deleting the marks leaves no mark and only characters of `s`. */
  lemma {:induction false} StripMarksKeeps(s: string)
    ensures NoMarks(StripMarks(s))
    ensures forall c :: c in StripMarks(s) ==> c in s
  {
    if s != [] {
      StripMarksKeeps(s[1..]);
    }
  }

  /** A text without combining marks is left as it is. */
  lemma {:induction false} StripMarksOfUnmarked(s: string)
    requires NoMarks(s)
    ensures StripMarks(s) == s
  {
    if s != [] {
      StripMarksOfUnmarked(s[1..]);
    }
  }

  /**
   * `BrCode.format_text`: NFD, then delete the combining marks, then trim. The result carries no
   * combining mark and no leading or trailing whitespace.
   */
  function FormatText(s: string): (r: string)
    ensures NoMarks(r)
    ensures Trimmed(r)
  {
    StripMarksKeeps(Nfd(s));
    TrimKeeps(StripMarks(Nfd(s)));
    Trim(StripMarks(Nfd(s)))
  }

  /** Formatting an already formatted text changes nothing. */
  lemma FormatTextIdempotent(s: string)
    ensures FormatText(FormatText(s)) == FormatText(s)
  {
    var n := Nfd(s);
    var m := StripMarks(n);
    var t := Trim(m);
    NfdFullyDecomposed(s);
    StripMarksKeeps(n);
    TrimKeeps(m);
    assert FullyDecomposed(t) by {
      forall c | c in t ensures !Decomposable(c) {
        assert c in m;
        assert c in n;
      }
    }
    NfdOfFullyDecomposed(t);
    StripMarksOfUnmarked(t);
    assert Trim(t) == t;
  }

  /** NFD works character by character. */
  lemma {:induction false} NfdOfConcat(a: string, b: string)
    ensures Nfd(a + b) == Nfd(a) + Nfd(b)
  {
    if a == [] {
      assert a + b == b;
    } else {
      assert (a + b)[0] == a[0];
      assert (a + b)[1..] == a[1..] + b;
      NfdOfConcat(a[1..], b);
    }
  }

  /** Deleting marks works character by character. */
  lemma {:induction false} StripMarksOfConcat(a: string, b: string)
    ensures StripMarks(a + b) == StripMarks(a) + StripMarks(b)
  {
    if a == [] {
      assert a + b == b;
    } else {
      var ab := a + b;
      assert ab[0] == a[0];
      assert ab[1..] == a[1..] + b;
      StripMarksOfConcat(a[1..], b);
      if IsCombiningMark(a[0]) {
        assert StripMarks(ab) == StripMarks(ab[1..]);
      } else {
        assert StripMarks(ab) == [a[0]] + StripMarks(ab[1..]);
      }
    }
  }

  /** Characters below U+00C0 are their own NFD. */
  lemma NfdBelowLatin1(s: string)
    requires forall c :: c in s ==> c < '\U{C0}'
    ensures Nfd(s) == s
  {
    forall c | c in s ensures !Decomposable(c) {
      NotDecomposableBelowLatin1(c);
    }
    NfdOfFullyDecomposed(s);
  }

  /** A single combining mark between two unmarked texts is deleted and the texts joined. */
  lemma StripMarksDropsMark(a: string, m: char, b: string)
    requires NoMarks(a + b)
    requires IsCombiningMark(m)
    ensures StripMarks(a + [m] + b) == a + b
  {
    assert forall c :: c in a ==> c in a + b;
    assert forall c :: c in b ==> c in a + b;
    StripMarksOfUnmarked(a);
    StripMarksOfUnmarked(b);
    assert [m][1..] == [];
    assert StripMarks([m]) == [];
    StripMarksOfConcat(a, [m]);
    StripMarksOfConcat(a + [m], b);
  }

  /** NFD of a text below U+00C0 with one accented Latin-1 letter decomposes exactly that letter. */
  lemma NfdOneAccent(head: string, x: char, rest: string)
    requires forall c :: c in head ==> c < '\U{C0}'
    requires forall c :: c in rest ==> c < '\U{C0}'
    requires Decomposable(x)
    ensures Nfd(head + [x] + rest) == head + [Decomposition(x).value.0, Decomposition(x).value.1] + rest
  {
    NfdOfConcat(head + [x], rest);
    NfdOfConcat(head, [x]);
    NfdBelowLatin1(head);
    NfdBelowLatin1(rest);
    assert [x][1..] == [];
    assert Nfd([x]) == Decompose(x);
  }

  /**
   * `format_text` on a text below U+00C0 with one accented Latin-1 letter in it: the letter is
   * replaced by its base letter and nothing else changes ("São Paulo" becomes "Sao Paulo").
   */
  lemma FormatTextRemovesAccent(head: string, x: char, rest: string)
    requires forall c :: c in head ==> c < '\U{C0}'
    requires forall c :: c in rest ==> c < '\U{C0}'
    requires Decomposable(x)
    requires head == [] || !IsWhitespace(head[0])
    requires rest == [] || !IsWhitespace(rest[|rest| - 1])
    ensures FormatText(head + [x] + rest) == head + [Decomposition(x).value.0] + rest
  {
    var base, mark := Decomposition(x).value.0, Decomposition(x).value.1;
    NfdOneAccent(head, x, rest);
    assert head + [base, mark] + rest == (head + [base]) + [mark] + rest;
    StripMarksDropsMark(head + [base], mark, rest);
    var r := head + [base] + rest;
    assert r[0] == if head == [] then base else head[0];
    assert r[|r| - 1] == if rest == [] then base else rest[|rest| - 1];
    assert Trimmed(r);
  }

}
