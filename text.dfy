/**
 * The string primitives the table renderer and the field-list parser use:
 * `str.capitalize`, the `'{:>w}'` right-alignment format, `'-' * n`,
 * and namedtuple's splitting of a field-name string.
 * Character classes are ASCII.
 */
module Text {

  function Upper(c: char): char {
    if 'a' <= c <= 'z' then (c as int - 'a' as int + 'A' as int) as char else c
  }

  function Lower(c: char): char {
    if 'A' <= c <= 'Z' then (c as int - 'A' as int + 'a' as int) as char else c
  }

  /** `s.capitalize()`: first character upper-cased, the rest lower-cased; the length never changes. */
  function Capitalize(s: string): (r: string)
    ensures |r| == |s|
    ensures s != [] ==> r[0] == Upper(s[0])
    ensures forall i :: 0 < i < |s| ==> r[i] == Lower(s[i])
  {
    if s == [] then [] else [Upper(s[0])] + LowerAll(s[1..])
  }

  function LowerAll(s: string): (r: string)
    ensures |r| == |s| && forall i :: 0 <= i < |s| ==> r[i] == Lower(s[i])
  {
    if s == [] then [] else [Lower(s[0])] + LowerAll(s[1..])
  }

  /** `c * n` for a one-character string `c` */
  function Repeat(c: char, n: nat): (r: string)
    ensures |r| == n && forall i :: 0 <= i < n ==> r[i] == c
  {
    if n == 0 then [] else Repeat(c, n - 1) + [c]
  }

  /**
   * `('{:>%d}' % w).format(s)`: `s` padded on the left with spaces to width `w`;
   * a string already at least `w` long is left as it is.
   */
  function RightAlign(s: string, w: nat): (r: string)
    ensures |r| == if |s| < w then w else |s|
  {
    if |s| < w then Repeat(' ', w - |s|) + s else s
  }

  /**
   * The padding is all spaces and the text ends with the original string.
   * Kept apart from `RightAlign`'s own contract so that reasoning about line
   * widths does not drag the slice equation along.
   */
  lemma RightAlignPads(s: string, w: nat)
    ensures RightAlign(s, w)[|RightAlign(s, w)| - |s|..] == s
    ensures forall i :: 0 <= i < |RightAlign(s, w)| - |s| ==> RightAlign(s, w)[i] == ' '
  {
  }

  /**
   * The characters `str.split()` treats as whitespace (those `str.isspace`
   * accepts), and the comma, which namedtuple replaces by a space first.
   */
  predicate IsSeparator(c: char) {
    || c == ',' || c == ' ' || '\t' <= c <= '\r' || 0x1c as char <= c <= 0x1f as char
    || c == 0x85 as char || c == 0xa0 as char || c == 0x1680 as char
    || 0x2000 as char <= c <= 0x200a as char || c == 0x2028 as char || c == 0x2029 as char
    || c == 0x202f as char || c == 0x205f as char || c == 0x3000 as char
  }

  /**
   * `s.replace(',', ' ').split()`: the maximal runs of non-separator characters, in order.
   * `word` is the run read so far.
   */
  function SplitWords(s: string, word: string): (r: seq<string>)
    requires forall i :: 0 <= i < |word| ==> !IsSeparator(word[i])
    ensures forall k :: 0 <= k < |r| ==> r[k] != [] && forall i :: 0 <= i < |r[k]| ==> !IsSeparator(r[k][i])
    decreases |s|
  {
    if s == [] then (if word == [] then [] else [word])
    else if IsSeparator(s[0]) then (if word == [] then [] else [word]) + SplitWords(s[1..], [])
    else SplitWords(s[1..], word + [s[0]])
  }

  function SplitFieldNames(s: string): (r: seq<string>)
    ensures forall k :: 0 <= k < |r| ==> r[k] != [] && forall i :: 0 <= i < |r[k]| ==> !IsSeparator(r[k][i])
  {
    SplitWords(s, [])
  }

  /** The strings of `ws` one after another. */
  function Concat(ws: seq<string>): string {
    if ws == [] then [] else ws[0] + Concat(ws[1..])
  }

  /** `s` with every separator removed. */
  function NonSeparators(s: string): string {
    if s == [] then [] else (if IsSeparator(s[0]) then [] else [s[0]]) + NonSeparators(s[1..])
  }

  /**
   * The words hold exactly the characters of the input that are not
   * separators, in their original order: splitting loses only separators.
   */
  lemma {:induction false} SplitWordsKeepsText(s: string, word: string)
    requires forall i :: 0 <= i < |word| ==> !IsSeparator(word[i])
    ensures Concat(SplitWords(s, word)) == word + NonSeparators(s)
    decreases |s|
  {
    if s == [] {
      assert word + [] == word;
      if word != [] {
        assert Concat([word]) == word + Concat([]);
      }
    } else if IsSeparator(s[0]) {
      var head: seq<string> := if word == [] then [] else [word];
      SplitWordsKeepsText(s[1..], []);
      var rest := SplitWords(s[1..], []);
      assert Concat(rest) == NonSeparators(s[1..]);
      if word != [] {
        assert (head + rest)[0] == word && (head + rest)[1..] == rest;
      } else {
        assert head + rest == rest;
      }
      assert NonSeparators(s) == NonSeparators(s[1..]);
    } else {
      SplitWordsKeepsText(s[1..], word + [s[0]]);
      assert NonSeparators(s) == [s[0]] + NonSeparators(s[1..]);
      assert word + [s[0]] + NonSeparators(s[1..]) == word + ([s[0]] + NonSeparators(s[1..]));
    }
  }

  /** Splitting drops only separators: a string with no separator in it splits into itself. */
  lemma {:induction false} SplitWordsNoSeparator(s: string, word: string)
    requires forall i :: 0 <= i < |word| ==> !IsSeparator(word[i])
    requires forall i :: 0 <= i < |s| ==> !IsSeparator(s[i])
    requires word + s != []
    ensures SplitWords(s, word) == [word + s]
    decreases |s|
  {
    if s != [] {
      SplitWordsNoSeparator(s[1..], word + [s[0]]);
      assert word + [s[0]] + s[1..] == word + s;
    } else {
      assert word + s == word;
    }
  }
}
