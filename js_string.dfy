/**
 * The JavaScript string operations the handlers rely on, over `seq<char>`:
 * `startsWith`, `split` on one character, `join`, `charAt(0).toUpperCase()`
 * followed by `slice(1)`, and the conversion of a whole number to its
 * decimal string (`n + '-'`).
 */
module JsString {
  import opened Wrappers

  /** `s.startsWith(prefix)`: a case-sensitive comparison of the first characters. */
  predicate StartsWith(s: string, prefix: string) {
    |prefix| <= |s| && s[..|prefix|] == prefix
  }

  /** `s.endsWith(suffix)`. */
  predicate EndsWith(s: string, suffix: string) {
    |suffix| <= |s| && s[|s| - |suffix|..] == suffix
  }

  /** `startsWith` compares character by character: it holds exactly when every character of the prefix is matched. */
  lemma StartsWithAt(s: string, prefix: string)
    ensures StartsWith(s, prefix) <==> |prefix| <= |s| && forall i :: 0 <= i < |prefix| ==> s[i] == prefix[i]
  {
    if |prefix| <= |s| && forall i :: 0 <= i < |prefix| ==> s[i] == prefix[i] {
      assert s[..|prefix|] == prefix;
    }
  }

  /** `startsWith` holds exactly when the string is the prefix followed by something. */
  lemma StartsWithIffPrefix(s: string, prefix: string)
    ensures StartsWith(s, prefix) <==> exists rest :: s == prefix + rest
  {
    if StartsWith(s, prefix) {
      assert s == prefix + s[|prefix|..];
    }
  }

  /** Number of occurrences of `c` in `s`. */
  function Count(s: string, c: char): nat {
    if s == "" then 0 else (if s[0] == c then 1 else 0) + Count(s[1..], c)
  }

  lemma {:induction false} CountAppend(a: string, b: string, c: char)
    ensures Count(a + b, c) == Count(a, c) + Count(b, c)
  {
    if a == "" {
      assert a + b == b;
    } else {
      assert (a + b)[0] == a[0];
      assert (a + b)[1..] == a[1..] + b;
      CountAppend(a[1..], b, c);
    }
  }

  /** `s.indexOf(c)`, with `-1` written as `None`. */
  function IndexOf(s: string, c: char): (k: Option<nat>)
    ensures k.Some? ==> k.value < |s| && s[k.value] == c && c !in s[..k.value]
    ensures k.None? ==> c !in s
  {
    if s == "" then None
    else if s[0] == c then Some(0)
    else match IndexOf(s[1..], c)
      case None => None
      case Some(j) => assert s[..j + 1] == [s[0]] + s[1..][..j]; Some(j + 1)
  }

  /** `String.prototype.toUpperCase` on one character, for the ASCII range. */
  function ToUpperChar(c: char): (u: char)
    ensures 'a' <= c <= 'z' ==> 'A' <= u <= 'Z' && u as int + 32 == c as int
    ensures !('a' <= c <= 'z') ==> u == c
  {
    if 'a' <= c <= 'z' then (c as int - 32) as char else c
  }

  /** Upper-casing never produces, nor removes, a space or a dash. */
  lemma ToUpperKeepsSeparators(c: char)
    ensures ToUpperChar(c) == ' ' <==> c == ' '
    ensures ToUpperChar(c) == '-' <==> c == '-'
  {
  }

  /** `word.charAt(0).toUpperCase() + word.slice(1)`; the empty word stays empty. */
  function Capitalize(word: string): (r: string)
    ensures |r| == |word|
    ensures |word| > 0 ==> r[0] == ToUpperChar(word[0]) && r[1..] == word[1..]
  {
    if word == "" then "" else [ToUpperChar(word[0])] + word[1..]
  }

  /** `words.map(Capitalize)`. */
  function CapitalizeAll(words: seq<string>): (r: seq<string>)
    ensures |r| == |words|
    ensures forall i :: 0 <= i < |words| ==> r[i] == Capitalize(words[i])
  {
    if words == [] then [] else [Capitalize(words[0])] + CapitalizeAll(words[1..])
  }

  lemma CapitalizeAllCons(word: string, words: seq<string>)
    ensures CapitalizeAll([word] + words) == [Capitalize(word)] + CapitalizeAll(words)
  {
    assert ([word] + words)[1..] == words;
  }

  /**
   * `s.split(sep)` for a one-character separator: the maximal runs between
   * separators, empty runs included, so there is always one piece more than
   * there are separators (`"".split('-')` is `[""]`).
   */
  function Split(s: string, sep: char): (pieces: seq<string>)
    ensures |pieces| == Count(s, sep) + 1
    ensures forall i :: 0 <= i < |pieces| ==> sep !in pieces[i]
  {
    if s == "" then [""]
    else
      var rest := Split(s[1..], sep);
      if s[0] == sep then [""] + rest
      else [[s[0]] + rest[0]] + rest[1..]
  }

  /** `pieces.join(sep)`: the pieces in order, the separator between each two. */
  function Join(pieces: seq<string>, sep: string): string {
    if |pieces| == 0 then ""
    else if |pieces| == 1 then pieces[0]
    else pieces[0] + sep + Join(pieces[1..], sep)
  }

  /** A join starts with its first piece and ends with its last one, separated by `sep` when there are two or more. */
  lemma {:induction false} JoinEnds(pieces: seq<string>, sep: string)
    requires |pieces| >= 1
    ensures StartsWith(Join(pieces, sep), pieces[0])
    ensures EndsWith(Join(pieces, sep), pieces[|pieces| - 1])
    ensures |pieces| >= 2 ==> StartsWith(Join(pieces, sep), pieces[0] + sep)
  {
    var s := Join(pieces, sep);
    if |pieces| >= 2 {
      var rest := Join(pieces[1..], sep);
      JoinEnds(pieces[1..], sep);
      assert s == (pieces[0] + sep) + rest;
      assert s[..|pieces[0] + sep|] == pieces[0] + sep;
      assert s[..|pieces[0]|] == pieces[0];
      assert pieces[1..][|pieces[1..]| - 1] == pieces[|pieces| - 1];
      assert s[|s| - |rest|..] == rest;
    }
  }

  /** Gluing a prefix onto the first piece glues it onto the joined string. */
  lemma JoinPrependFirst(x: string, pieces: seq<string>, sep: string)
    requires |pieces| >= 1
    ensures Join([x + pieces[0]] + pieces[1..], sep) == x + Join(pieces, sep)
  {
    var glued := [x + pieces[0]] + pieces[1..];
    assert glued[0] == x + pieces[0];
    assert glued[1..] == pieces[1..];
    if |pieces| > 1 {
      assert x + pieces[0] + sep + Join(pieces[1..], sep) == x + (pieces[0] + sep + Join(pieces[1..], sep));
    }
  }

  /** Joining the pieces of a split with the separator gives back the string. */
  lemma {:induction false} JoinSplit(s: string, sep: char)
    ensures Join(Split(s, sep), [sep]) == s
  {
    if s != "" {
      var rest := Split(s[1..], sep);
      JoinSplit(s[1..], sep);
      if s[0] == sep {
        var pieces := [""] + rest;
        assert pieces[1..] == rest;
        assert Join(pieces, [sep]) == "" + [sep] + Join(rest, [sep]);
        assert s == [sep] + s[1..];
      } else {
        JoinPrependFirst([s[0]], rest, [sep]);
        assert s == [s[0]] + s[1..];
      }
    }
  }

  /** Splitting a string that starts with a separator-free word. */
  lemma {:induction false} SplitAfterWord(w: string, t: string, sep: char)
    requires sep !in w
    ensures Split(w + t, sep) == [w + Split(t, sep)[0]] + Split(t, sep)[1..]
  {
    var r := Split(t, sep);
    if w == "" {
      assert w + t == t;
      assert w + r[0] == r[0];
      assert [r[0]] + r[1..] == r;
    } else {
      SplitAfterWord(w[1..], t, sep);
      assert (w + t)[0] == w[0];
      assert (w + t)[1..] == w[1..] + t;
      assert [w[0]] + (w[1..] + r[0]) == w + r[0];
    }
  }

  /** Splitting separator-free pieces joined by the separator gives back the pieces. */
  lemma {:induction false} SplitJoin(pieces: seq<string>, sep: char)
    requires |pieces| >= 1
    requires forall i :: 0 <= i < |pieces| ==> sep !in pieces[i]
    ensures Split(Join(pieces, [sep]), sep) == pieces
  {
    if |pieces| == 1 {
      SplitAfterWord(pieces[0], "", sep);
      assert pieces[0] + "" == pieces[0];
    } else {
      var tail := Join(pieces[1..], [sep]);
      SplitJoin(pieces[1..], sep);
      var sepThenTail := [sep] + tail;
      assert sepThenTail[1..] == tail;
      assert Split(sepThenTail, sep) == [""] + pieces[1..];
      assert pieces[0] + [sep] + tail == pieces[0] + sepThenTail;
      SplitAfterWord(pieces[0], sepThenTail, sep);
      assert pieces[0] + "" == pieces[0];
      assert [pieces[0]] + pieces[1..] == pieces;
    }
  }

  predicate IsDigit(c: char) {
    '0' <= c <= '9'
  }

  predicate IsDigits(s: string) {
    forall i :: 0 <= i < |s| ==> IsDigit(s[i])
  }

  function DigitChar(d: nat): (c: char)
    requires d < 10
    ensures IsDigit(c)
  {
    ('0' as int + d) as char
  }

  /** The decimal string of a whole number: what `n + '-'` writes for `n`. */
  function NumberToString(n: nat): (s: string)
    ensures |s| >= 1 && IsDigits(s)
    ensures s[0] == '0' ==> n == 0
  {
    if n < 10 then [DigitChar(n)] else NumberToString(n / 10) + [DigitChar(n % 10)]
  }

  /** The value of a string of decimal digits. */
  function ParseDigits(s: string): nat
    requires IsDigits(s)
  {
    if s == "" then 0 else 10 * ParseDigits(s[..|s| - 1]) + (s[|s| - 1] as int - '0' as int)
  }

  /** Reading back the decimal string of a number gives the number. */
  lemma {:induction false} ParseNumberToString(n: nat)
    ensures ParseDigits(NumberToString(n)) == n
  {
    var s := NumberToString(n);
    if n >= 10 {
      ParseNumberToString(n / 10);
      assert s[..|s| - 1] == NumberToString(n / 10);
    }
  }
}
