/**
 * String utilities with the semantics of the JavaScript and Python builtins the
 * application relies on: the JavaScript white-space class (`\s`, `trim()`),
 * `split` on one character, `join`, decimal rendering and `padStart(2, '0')`,
 * the code-point lexicographic order of `<` on strings, and ASCII case mapping.
 */
module Text {

  /** JavaScript's WhiteSpace and LineTerminator characters (the `\s` class and `trim()`). */
  predicate IsSpace(c: char) {
    c == '\t' || c == '\n' || c == '\U{B}' || c == '\U{C}' || c == '\r' || c == ' '
    || c == '\U{A0}' || c == '\U{1680}' || ('\U{2000}' <= c <= '\U{200A}')
    || c == '\U{2028}' || c == '\U{2029}' || c == '\U{202F}' || c == '\U{205F}'
    || c == '\U{3000}' || c == '\U{FEFF}'
  }

  predicate AllSpace(s: string) {
    forall i :: 0 <= i < |s| ==> IsSpace(s[i])
  }

  /** `s.replace(/^\s+/, '')`: drops the leading white space. */
  function TrimStart(s: string): (r: string)
    ensures |r| <= |s| && r == s[|s| - |r|..]
    ensures AllSpace(s[..|s| - |r|])
    ensures r == [] || !IsSpace(r[0])
  {
    if s == [] || !IsSpace(s[0]) then s
    else
      var t := TrimStart(s[1..]);
      assert s[..|s| - |t|] == [s[0]] + s[1..][..|s| - 1 - |t|];
      t
  }

  /** Drops the trailing white space. */
  function TrimEnd(s: string): (r: string)
    ensures |r| <= |s| && r == s[..|r|]
    ensures AllSpace(s[|r|..])
    ensures r == [] || !IsSpace(r[|r| - 1])
  {
    if s == [] || !IsSpace(s[|s| - 1]) then s
    else
      var t := TrimEnd(s[..|s| - 1]);
      assert s[|t|..] == s[..|s| - 1][|t|..] + [s[|s| - 1]];
      t
  }

  lemma SpaceSuffix(s: string, k: nat)
    requires k <= |s| && AllSpace(s)
    ensures AllSpace(s[k..])
  {
    assert forall i :: 0 <= i < |s| - k ==> s[k..][i] == s[k + i];
  }

  lemma SpaceConcat(a: string, b: string)
    requires AllSpace(a) && AllSpace(b)
    ensures AllSpace(a + b)
  {
    assert forall i :: 0 <= i < |a + b| ==> (a + b)[i] == if i < |a| then a[i] else b[i - |a|];
  }

  lemma {:induction false} TrimEmptyIff(s: string)
    ensures AllSpace(s) <==> TrimEnd(TrimStart(s)) == []
  {
    var t := TrimStart(s);
    var r := TrimEnd(t);
    assert s == s[..|s| - |t|] + t;
    if AllSpace(s) { SpaceSuffix(s, |s| - |t|); }
    if r == [] {
      assert t[|r|..] == t;
      SpaceConcat(s[..|s| - |t|], t);
    }
  }

  /** `s.trim()`. */
  function Trim(s: string): (r: string)
    ensures r == [] || (!IsSpace(r[0]) && !IsSpace(r[|r| - 1]))
    ensures AllSpace(s) <==> r == []
  {
    var t := TrimStart(s);
    var r := TrimEnd(t);
    TrimEmptyIff(s);
    assert r != [] ==> r[0] == t[0];
    r
  }

  /** Number of maximal runs of non-white-space characters, `prevSpace` telling
      whether the character before `s` was white space (or `s` starts the text). */
  function Runs(s: string, prevSpace: bool): nat {
    if s == [] then 0
    else if IsSpace(s[0]) then Runs(s[1..], true)
    else (if prevSpace then 1 else 0) + Runs(s[1..], false)
  }

  /** The words of `s`: `s.trim().split(/\s+/).filter(w => w.length > 0).length`. */
  function WordCount(s: string): nat {
    Runs(s, true)
  }

  predicate IsWord(w: string) {
    w != [] && forall i :: 0 <= i < |w| ==> !IsSpace(w[i])
  }

  lemma {:induction false} RunsOfWord(w: string, rest: string, prevSpace: bool)
    requires IsWord(w)
    ensures Runs(w + rest, prevSpace) == (if prevSpace then 1 else 0) + Runs(rest, false)
    decreases |w|
  {
    assert (w + rest)[0] == w[0];
    assert (w + rest)[1..] == w[1..] + rest;
    if |w| > 1 {
      RunsOfWord(w[1..], rest, false);
    } else {
      assert w[1..] + rest == rest;
    }
  }

  lemma RunsAfterSpace(rest: string, prevSpace: bool)
    ensures Runs(" " + rest, prevSpace) == Runs(rest, true)
  {
    assert (" " + rest)[1..] == rest;
  }

  /** Joining space-free words with single spaces yields exactly that many words. */
  lemma {:induction false} WordCountOfJoin(words: seq<string>)
    requires forall i :: 0 <= i < |words| ==> IsWord(words[i])
    ensures WordCount(Join(words, " ")) == |words|
  {
    if |words| == 0 {
    } else if |words| == 1 {
      RunsOfWord(words[0], "", true);
      assert words[0] + "" == words[0];
    } else {
      var tail := Join(words[1..], " ");
      assert Join(words, " ") == words[0] + (" " + tail);
      RunsOfWord(words[0], " " + tail, true);
      RunsAfterSpace(tail, false);
      WordCountOfJoin(words[1..]);
    }
  }

  /** `words[0] + seps[0] + words[1] + … + words[n - 1]`: words with a separator between each two. */
  function Interleave(words: seq<string>, seps: seq<string>): string
    requires |seps| == if words == [] then 0 else |words| - 1
    decreases |words|
  {
    if words == [] then ""
    else if |words| == 1 then words[0]
    else words[0] + seps[0] + Interleave(words[1..], seps[1..])
  }

  /** A run of white space adds no word; a non-empty one ends the word before it. */
  lemma {:induction false} RunsOfSpace(g: string, rest: string, prevSpace: bool)
    requires AllSpace(g)
    ensures Runs(g + rest, prevSpace) == Runs(rest, if g == [] then prevSpace else true)
    decreases |g|
  {
    if g == [] {
      assert g + rest == rest;
    } else {
      assert (g + rest)[0] == g[0];
      assert (g + rest)[1..] == g[1..] + rest;
      RunsOfSpace(g[1..], rest, true);
    }
  }

  /**
   * Words separated by non-empty runs of white space, followed by white
   * space, hold exactly that many words.
   */
  lemma {:induction false} RunsOfInterleave(words: seq<string>, seps: seq<string>, trail: string)
    requires forall i :: 0 <= i < |words| ==> IsWord(words[i])
    requires |seps| == if words == [] then 0 else |words| - 1
    requires forall i :: 0 <= i < |seps| ==> seps[i] != [] && AllSpace(seps[i])
    requires AllSpace(trail)
    ensures Runs(Interleave(words, seps) + trail, true) == |words|
    decreases |words|
  {
    if words == [] {
      RunsOfSpace(trail, "", true);
      assert "" + trail == trail + "";
    } else if |words| == 1 {
      RunsOfWord(words[0], trail, true);
      RunsOfSpace(trail, "", false);
      assert trail + "" == trail;
    } else {
      var tail := Interleave(words[1..], seps[1..]);
      assert Interleave(words, seps) + trail == words[0] + (seps[0] + (tail + trail));
      RunsOfWord(words[0], seps[0] + (tail + trail), true);
      RunsOfSpace(seps[0], tail + trail, false);
      RunsOfInterleave(words[1..], seps[1..], trail);
    }
  }

  /** Index of the first occurrence of `c` in `s`. */
  function IndexOf(s: string, c: char): (i: nat)
    requires c in s
    ensures i < |s| && s[i] == c && c !in s[..i]
  {
    if s[0] == c then 0 else IndexOf(s[1..], c) + 1
  }

  lemma {:induction false} IndexOfAfterFree(a: string, c: char, b: string)
    requires c !in a
    ensures c in a + [c] + b && IndexOf(a + [c] + b, c) == |a|
  {
    if a != [] {
      assert (a + [c] + b)[1..] == a[1..] + [c] + b;
      IndexOfAfterFree(a[1..], c, b);
    }
  }

  /** `s.split(sep)` for a one-character separator. */
  function Split(s: string, sep: char): (r: seq<string>)
    ensures |r| >= 1
    ensures forall k :: 0 <= k < |r| ==> sep !in r[k]
    decreases |s|
  {
    if sep !in s then [s]
    else
      var i := IndexOf(s, sep);
      [s[..i]] + Split(s[i + 1..], sep)
  }

  /** Splitting at the first separator, when the text before it has none. */
  lemma SplitCons(a: string, sep: char, rest: string)
    requires sep !in a
    ensures Split(a + [sep] + rest, sep) == [a] + Split(rest, sep)
  {
    IndexOfAfterFree(a, sep, rest);
    var s := a + [sep] + rest;
    assert s[..|a|] == a && s[|a| + 1..] == rest;
  }

  /** Three separator-free pieces joined by the separator split back into themselves. */
  lemma SplitThree(a: string, b: string, c: string, sep: char)
    requires sep !in a && sep !in b && sep !in c
    ensures Split(a + [sep] + b + [sep] + c, sep) == [a, b, c]
  {
    assert a + [sep] + b + [sep] + c == a + [sep] + (b + [sep] + c);
    SplitCons(a, sep, b + [sep] + c);
    SplitCons(b, sep, c);
  }

  /** `parts.join(sep)`. */
  function Join(parts: seq<string>, sep: string): string {
    if |parts| == 0 then ""
    else if |parts| == 1 then parts[0]
    else parts[0] + sep + Join(parts[1..], sep)
  }

  /** Splitting and joining back on the same separator restores the text. */
  lemma {:induction false} JoinSplit(s: string, sep: char)
    ensures Join(Split(s, sep), [sep]) == s
    decreases |s|
  {
    if sep in s {
      var i := IndexOf(s, sep);
      var tail := Split(s[i + 1..], sep);
      JoinSplit(s[i + 1..], sep);
      var parts := [s[..i]] + tail;
      assert Split(s, sep) == parts;
      assert |parts| >= 2 && parts[0] == s[..i] && parts[1..] == tail;
      assert Join(parts, [sep]) == s[..i] + [sep] + Join(tail, [sep]);
      assert s == s[..i] + [sep] + s[i + 1..];
    }
  }

  /** Joining preserves the number of parts, so `Split` of a join cannot lose any. */
  lemma {:induction false} SplitJoin(parts: seq<string>, sep: char)
    requires |parts| >= 1
    requires forall k :: 0 <= k < |parts| ==> sep !in parts[k]
    ensures Split(Join(parts, [sep]), sep) == parts
  {
    if |parts| > 1 {
      var tail := Join(parts[1..], [sep]);
      var s := parts[0] + [sep] + tail;
      assert Join(parts, [sep]) == s;
      IndexOfAfterFree(parts[0], sep, tail);
      var i := IndexOf(s, sep);
      assert s[..i] == parts[0] && s[i + 1..] == tail;
      assert Split(s, sep) == [parts[0]] + Split(tail, sep);
      SplitJoin(parts[1..], sep);
    } else {
      assert Join(parts, [sep]) == parts[0];
    }
  }

  // ---------------------------------------------------------------- digits

  function DigitChar(d: nat): (c: char)
    requires d < 10
    ensures '0' <= c <= '9' && c as int - '0' as int == d
  {
    ('0' as int + d) as char
  }

  predicate IsDigit(c: char) {
    '0' <= c <= '9'
  }

  function DigitValue(c: char): (d: nat)
    requires IsDigit(c)
    ensures d < 10 && DigitChar(d) == c
  {
    (c as int - '0' as int) as nat
  }

  /** `n.toString()` / `str(n)` for a non-negative integer. */
  function NatToString(n: nat): (r: string)
    ensures |r| >= 1
    ensures forall i :: 0 <= i < |r| ==> IsDigit(r[i])
  {
    if n < 10 then [DigitChar(n)] else NatToString(n / 10) + [DigitChar(n % 10)]
  }

  /** `str(i)` / `String(i)` for any integer. */
  function IntToString(i: int): (r: string)
    ensures i >= 0 ==> r == NatToString(i)
    ensures i < 0 ==> r == "-" + NatToString(-i)
  {
    if i < 0 then "-" + NatToString(-i) else NatToString(i)
  }

  /** The value of a string of decimal digits. */
  function DigitsValue(s: string): nat
    requires forall i :: 0 <= i < |s| ==> IsDigit(s[i])
  {
    if s == [] then 0 else DigitsValue(s[..|s| - 1]) * 10 + DigitValue(s[|s| - 1])
  }

  /** Reading back the rendering of a number gives the number. */
  lemma {:induction false} DigitsValueOfNatToString(n: nat)
    ensures DigitsValue(NatToString(n)) == n
  {
    var r := NatToString(n);
    if n >= 10 {
      var q := n / 10;
      assert r[..|r| - 1] == NatToString(q) && r[|r| - 1] == DigitChar(n % 10);
      DigitsValueOfNatToString(q);
      assert DigitsValue(r) == n by {
        assert DigitsValue(r) == DigitsValue(NatToString(q)) * 10 + DigitValue(DigitChar(n % 10));
      }
    }
  }

  /** `s.padStart(2, '0')`. */
  function PadStart2(s: string): (r: string)
    ensures |r| == if |s| >= 2 then |s| else 2
    ensures r[|r| - |s|..] == s
  {
    if |s| >= 2 then s else if |s| == 1 then "0" + s else "00"
  }

  /** `String(n).padStart(2, '0')`: at least two digits, reading back as `n`. */
  function Pad2(n: nat): (r: string)
    ensures |r| >= 2 && (n < 100 ==> |r| == 2)
    ensures forall i :: 0 <= i < |r| ==> IsDigit(r[i])
    ensures DigitsValue(r) == n
  {
    var s := NatToString(n);
    DigitsValueOfNatToString(n);
    if |s| >= 2 then s
    else
      assert DigitsValue("0" + s) == DigitsValue(s) by {
        assert ("0" + s)[..1] == "0";
      }
      "0" + s
  }

  /** A leading zero does not change the value of a digit string. */
  lemma {:induction false} LeadingZero(s: string)
    requires forall i :: 0 <= i < |s| ==> IsDigit(s[i])
    ensures DigitsValue("0" + s) == DigitsValue(s)
    decreases |s|
  {
    if s != [] {
      assert ("0" + s)[..|"0" + s| - 1] == "0" + s[..|s| - 1];
      LeadingZero(s[..|s| - 1]);
    } else {
      assert ("0" + s)[..0] == [];
    }
  }

  /** `s.padStart(w, '0')` on a digit string: at least `w` digits, same value. */
  function PadZeros(s: string, w: nat): (r: string)
    requires forall i :: 0 <= i < |s| ==> IsDigit(s[i])
    ensures |r| == if |s| >= w then |s| else w
    ensures forall i :: 0 <= i < |r| ==> IsDigit(r[i])
    ensures DigitsValue(r) == DigitsValue(s)
    decreases w - |s|
  {
    if |s| >= w then s
    else
      LeadingZero(s);
      PadZeros("0" + s, w)
  }

  /** `String(n).padStart(w, '0')`. */
  function PadNum(n: nat, w: nat): (r: string)
    ensures |r| >= w
    ensures forall i :: 0 <= i < |r| ==> IsDigit(r[i])
    ensures DigitsValue(r) == n
  {
    DigitsValueOfNatToString(n);
    PadZeros(NatToString(n), w)
  }

  /** A number below `10^k` has at most `k` digits. */
  lemma {:induction false} NatToStringLength(n: nat, k: nat, p: nat)
    requires p == Pow10(k) && n < p && k >= 1
    ensures |NatToString(n)| <= k
    decreases k
  {
    if n >= 10 {
      NatToStringLength(n / 10, k - 1, p / 10);
    }
  }

  function Pow10(k: nat): (p: nat)
    ensures p >= 1
  {
    if k == 0 then 1 else 10 * Pow10(k - 1)
  }

  /** Padding a number below `10^w` to `w` digits gives exactly `w` digits. */
  lemma PadNumWidth(n: nat, w: nat)
    requires w >= 1 && n < Pow10(w)
    ensures |PadNum(n, w)| == w
  {
    NatToStringLength(n, w, Pow10(w));
  }

  // ---------------------------------------------------------------- UTF-16

  /** The UTF-16 code units of one character: itself below U+10000, else its surrogate pair. */
  function CharUnits(c: char): (r: seq<int>)
    ensures |r| == if c as int < 0x1_0000 then 1 else 2
  {
    if c as int < 0x1_0000 then [c as int]
    else [0xD800 + (c as int - 0x1_0000) / 0x400, 0xDC00 + (c as int - 0x1_0000) % 0x400]
  }

  /** A surrogate pair reads back as the character it encodes. */
  lemma CharUnitsDecode(c: char)
    requires c as int >= 0x1_0000
    ensures 0xD800 <= CharUnits(c)[0] < 0xDC00 && 0xDC00 <= CharUnits(c)[1] < 0xE000
    ensures 0x1_0000 + (CharUnits(c)[0] - 0xD800) * 0x400 + (CharUnits(c)[1] - 0xDC00) == c as int
  {
  }

  /** The UTF-16 code units of a text, the units JavaScript's `length` counts and `charCodeAt` reads. */
  function Utf16(s: string): (r: seq<int>)
    ensures |r| >= |s|
  {
    if s == [] then [] else Utf16(s[..|s| - 1]) + CharUnits(s[|s| - 1])
  }

  /** Below U+10000 every character is one code unit, its own code. */
  lemma {:induction false} Utf16OfBasic(s: string)
    requires forall i :: 0 <= i < |s| ==> s[i] as int < 0x1_0000
    ensures Utf16(s) == seq(|s|, i requires 0 <= i < |s| => s[i] as int)
  {
    if s != [] {
      Utf16OfBasic(s[..|s| - 1]);
    }
  }

  // ---------------------------------------------------------------- order

  /** Lexicographic comparison of `a[i..]` and `b[i..]`. */
  predicate LeFrom(a: string, b: string, i: nat)
    decreases |a| - i
  {
    i >= |a| || (i < |b| && (a[i] < b[i] || (a[i] == b[i] && LeFrom(a, b, i + 1))))
  }

  /**
   * Code-point lexicographic order, which is Python's `<=` on str. JavaScript's
   * `<=` compares UTF-16 code units instead; the two differ only between a
   * character above U+FFFF and one in U+E000..U+FFFF.
   */
  predicate StrLe(a: string, b: string) {
    LeFrom(a, b, 0)
  }

  lemma {:induction false} LeFromTotal(a: string, b: string, i: nat)
    ensures LeFrom(a, b, i) || LeFrom(b, a, i)
    decreases |a| - i
  {
    if i < |a| && i < |b| && a[i] == b[i] { LeFromTotal(a, b, i + 1); }
  }

  lemma {:induction false} LeFromTrans(a: string, b: string, c: string, i: nat)
    requires LeFrom(a, b, i) && LeFrom(b, c, i)
    ensures LeFrom(a, c, i)
    decreases |a| - i
  {
    if i < |a| && i < |b| && i < |c| && a[i] == b[i] && b[i] == c[i] {
      LeFromTrans(a, b, c, i + 1);
    }
  }

  lemma {:induction false} LeFromAntisym(a: string, b: string, i: nat)
    requires i <= |a| && i <= |b| && LeFrom(a, b, i) && LeFrom(b, a, i)
    ensures a[i..] == b[i..]
    decreases |a| - i
  {
    if i < |a| && i < |b| {
      LeFromAntisym(a, b, i + 1);
      assert a[i..] == [a[i]] + a[i + 1..] && b[i..] == [b[i]] + b[i + 1..];
    }
  }

  lemma StrLeTotal(a: string, b: string)
    ensures StrLe(a, b) || StrLe(b, a)
  {
    LeFromTotal(a, b, 0);
  }

  lemma StrLeTrans(a: string, b: string, c: string)
    requires StrLe(a, b) && StrLe(b, c)
    ensures StrLe(a, c)
  {
    LeFromTrans(a, b, c, 0);
  }

  lemma StrLeAntisym(a: string, b: string)
    requires StrLe(a, b) && StrLe(b, a)
    ensures a == b
  {
    LeFromAntisym(a, b, 0);
  }

  // ---------------------------------------------------------------- case

  function LowerChar(c: char): char {
    if 'A' <= c <= 'Z' then (c as int + 32) as char else c
  }

  function UpperChar(c: char): char {
    if 'a' <= c <= 'z' then (c as int - 32) as char else c
  }

  /** `s.toLowerCase()` restricted to the ASCII letters. */
  function ToLower(s: string): (r: string)
    ensures |r| == |s|
    ensures forall i :: 0 <= i < |s| ==> r[i] == LowerChar(s[i])
  {
    if s == [] then [] else [LowerChar(s[0])] + ToLower(s[1..])
  }

  /** `s.charAt(0).toUpperCase() + s.slice(1)` on ASCII. */
  function Capitalize(s: string): (r: string)
    ensures |r| == |s| && (s != [] ==> r[0] == UpperChar(s[0]) && r[1..] == s[1..])
  {
    if s == [] then [] else [UpperChar(s[0])] + s[1..]
  }
}
