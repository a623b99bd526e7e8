/** String operations the modelled code relies on: case folding, trimming,
    `split`, "text after the last dot" and the filename-stem regular expression. */
module Strings {

  /** ASCII case folding, the part of JavaScript's `toLowerCase()` and Python's
      `lower()` that this model captures. */
  function LowerChar(c: char): char
  {
    if 'A' <= c <= 'Z' then (c as int + 32) as char else c
  }

  function Lower(s: string): (r: string)
    ensures |r| == |s|
    ensures forall i :: 0 <= i < |s| ==> r[i] == LowerChar(s[i])
  {
    if s == [] then [] else [LowerChar(s[0])] + Lower(s[1..])
  }

  /** Whitespace removed by JavaScript's `trim()` and Python's `strip()`:
      space, tab, newline, carriage return, vertical tab and form feed.
      Python's `\x1c`-`\x1f` and non-ASCII spaces are not included. */
  predicate IsSpace(c: char)
  {
    c == ' ' || c == '\t' || c == '\n' || c == '\r' || c == '\U{B}' || c == '\U{C}'
  }

  predicate StartsWith(s: string, prefix: string)
  {
    |prefix| <= |s| && s[..|prefix|] == prefix
  }

  /** `sub in s` in Python, `s.includes(sub)` in JavaScript. */
  predicate Contains(s: string, sub: string)
    decreases |s|
  {
    StartsWith(s, sub) || (|s| > 0 && Contains(s[1..], sub))
  }

  function TrimStart(s: string): (r: string)
    ensures |r| <= |s|
    ensures r == [] || !IsSpace(r[0])
    ensures forall i :: 0 <= i < |s| - |r| ==> IsSpace(s[i])
  {
    if s != [] && IsSpace(s[0]) then TrimStart(s[1..]) else s
  }

  function TrimEnd(s: string): (r: string)
    ensures |r| <= |s|
    ensures r == [] || !IsSpace(r[|r| - 1])
    ensures forall i :: |r| <= i < |s| ==> IsSpace(s[i])
  {
    if s != [] && IsSpace(s[|s| - 1]) then TrimEnd(s[..|s| - 1]) else s
  }

  /** `s.trim()` / `s.strip()`: drops leading and trailing whitespace only. */
  function Trim(s: string): (r: string)
    ensures |r| <= |s|
    ensures r == [] || (!IsSpace(r[0]) && !IsSpace(r[|r| - 1]))
    ensures r == [] <==> forall i :: 0 <= i < |s| ==> IsSpace(s[i])
    ensures forall c :: c in r ==> c in s
  {
    var t := TrimStart(s);
    var r := TrimEnd(t);
    TrimStartSuffix(s);
    TrimEndPrefix(t);
    assert r == [] ==> t == [];
    r
  }

  /** What `TrimStart` keeps is a suffix of its input. */
  lemma {:induction false} TrimStartSuffix(s: string)
    ensures TrimStart(s) == s[|s| - |TrimStart(s)|..]
    decreases |s|
  {
    if s != [] && IsSpace(s[0]) {
      TrimStartSuffix(s[1..]);
      assert s[1..][|s| - 1 - |TrimStart(s)|..] == s[|s| - |TrimStart(s)|..];
    }
  }

  /** What `TrimEnd` keeps is a prefix of its input. */
  lemma {:induction false} TrimEndPrefix(s: string)
    ensures TrimEnd(s) == s[..|TrimEnd(s)|]
    decreases |s|
  {
    if s != [] && IsSpace(s[|s| - 1]) {
      TrimEndPrefix(s[..|s| - 1]);
      assert s[..|s| - 1][..|TrimEnd(s)|] == s[..|TrimEnd(s)|];
    }
  }

  /** Python's `s.lstrip(chars)`: drops the longest prefix made only of
      characters in `chars` (a character set, not a prefix string). */
  function LStripChars(s: string, chars: set<char>): (r: string)
    ensures |r| <= |s|
    ensures r == [] || r[0] !in chars
    ensures forall i :: 0 <= i < |s| - |r| ==> s[i] in chars
  {
    if s != [] && s[0] in chars then LStripChars(s[1..], chars) else s
  }

  /** What `LStripChars` keeps is a suffix of its input. */
  lemma {:induction false} LStripSuffix(s: string, chars: set<char>)
    ensures LStripChars(s, chars) == s[|s| - |LStripChars(s, chars)|..]
    decreases |s|
  {
    if s != [] && s[0] in chars {
      LStripSuffix(s[1..], chars);
      assert s[1..][|s| - 1 - |LStripChars(s, chars)|..] == s[|s| - |LStripChars(s, chars)|..];
    }
  }

  /** JavaScript's `s.split(sep)` and Python's `s.split(sep)` for a one-character
      separator: never empty; each separator closes a part and opens the next. */
  function Split(s: string, sep: char): (parts: seq<string>)
    ensures |parts| >= 1
  {
    if s == [] then [[]]
    else
      var rest := Split(s[1..], sep);
      if s[0] == sep then [[]] + rest else [[s[0]] + rest[0]] + rest[1..]
  }

  function Join(parts: seq<string>, sep: char): string
    requires |parts| >= 1
  {
    if |parts| == 1 then parts[0] else parts[0] + [sep] + Join(parts[1..], sep)
  }

  /** Splitting loses nothing: joining the parts back gives the original. */
  lemma {:induction false} JoinSplit(s: string, sep: char)
    ensures Join(Split(s, sep), sep) == s
    decreases |s|
  {
    if s != [] {
      var rest := Split(s[1..], sep);
      JoinSplit(s[1..], sep);
      assert s == [s[0]] + s[1..];
      if s[0] == sep {
        assert ([[]] + rest)[1..] == rest;
      } else {
        var parts := [[s[0]] + rest[0]] + rest[1..];
        if |rest| > 1 {
          assert parts[1..] == rest[1..];
        }
      }
    }
  }

  /** No part of a split holds the separator. */
  lemma {:induction false} SplitPartsFree(s: string, sep: char)
    ensures forall k :: 0 <= k < |Split(s, sep)| ==> sep !in Split(s, sep)[k]
    decreases |s|
  {
    if s != [] {
      SplitPartsFree(s[1..], sep);
      var rest := Split(s[1..], sep);
      var parts := Split(s, sep);
      if s[0] == sep {
        assert forall k :: 1 <= k < |parts| ==> parts[k] == rest[k - 1];
      } else {
        var first := [s[0]] + rest[0];
        assert sep !in rest[0];
        assert forall j :: 1 <= j < |first| ==> first[j] == rest[0][j - 1];
        assert forall k :: 1 <= k < |parts| ==> parts[k] == rest[k];
      }
    }
  }

  /** A text without the separator is a single part. */
  lemma {:induction false} SplitWhole(s: string, sep: char)
    requires sep !in s
    ensures Split(s, sep) == [s]
    decreases |s|
  {
    if s != [] {
      SplitWhole(s[1..], sep);
      assert [s[0]] + s[1..] == s;
    }
  }

  /** A split has one part exactly when the separator does not occur. */
  lemma {:induction false} SplitSingle(s: string, sep: char)
    ensures |Split(s, sep)| == 1 <==> sep !in s
    decreases |s|
  {
    if s != [] {
      SplitSingle(s[1..], sep);
      assert sep in s <==> s[0] == sep || sep in s[1..];
    }
  }

  /** The text after the last `c` in `s`, or all of `s` when it has no `c`. */
  function AfterLast(s: string, c: char): (r: string)
    ensures |r| <= |s|
    ensures c !in r
    ensures |r| < |s| ==> s[|s| - |r| - 1] == c
  {
    if s == [] || s[|s| - 1] == c then [] else AfterLast(s[..|s| - 1], c) + [s[|s| - 1]]
  }

  /** Without the character, the whole text is "after the last" one. */
  lemma {:induction false} AfterLastWhole(s: string, c: char)
    requires c !in s
    ensures AfterLast(s, c) == s
    decreases |s|
  {
    if s != [] {
      var s' := s[..|s| - 1];
      assert s == s' + [s[|s| - 1]];
      AfterLastWhole(s', c);
    }
  }

  /** Putting one character in front of a text changes what follows the last
      `c` only when the text has no `c`. */
  lemma {:induction false} AfterLastCons(x: char, t: string, c: char)
    ensures AfterLast([x] + t, c) == if c in t then AfterLast(t, c) else if x == c then t else [x] + t
    decreases |t|
  {
    var s := [x] + t;
    if t != [] {
      var y := t[|t| - 1];
      var t' := t[..|t| - 1];
      assert t == t' + [y];
      assert s[..|s| - 1] == [x] + t';
      assert s[|s| - 1] == y;
      AfterLastCons(x, t', c);
      assert c in t <==> c in t' || y == c;
    }
  }

  /** `s.split(c).pop()` (JavaScript) and `s.split(c)[-1]` (Python) both give
      the text after the last `c`. */
  lemma {:induction false} AfterLastIsLastPart(s: string, c: char)
    ensures var parts := Split(s, c); AfterLast(s, c) == parts[|parts| - 1]
    decreases |s|
  {
    if s != [] {
      var t := s[1..];
      var rest := Split(t, c);
      assert s == [s[0]] + t;
      AfterLastIsLastPart(t, c);
      AfterLastCons(s[0], t, c);
      SplitSingle(t, c);
      var parts := Split(s, c);
      if c in t {
        assert |rest| > 1;
        assert parts[|parts| - 1] == rest[|rest| - 1];
      } else {
        SplitWhole(t, c);
        AfterLastWhole(t, c);
        assert parts == if s[0] == c then [[], t] else [s];
      }
    }
  }

  /** The extension of a file name as the sources compute it: the lower-cased
      text after the last `.` (the whole name when there is no dot). */
  function FileExtension(name: string): (ext: string)
    ensures '.' !in ext
  {
    Lower(AfterLast(name, '.'))
  }

  /** The longest suffix holding neither `.` nor `/`. */
  function ExtensionTail(s: string): (r: string)
    ensures |r| <= |s|
    ensures forall i :: |s| - |r| <= i < |s| ==> s[i] != '.' && s[i] != '/'
    ensures |r| < |s| ==> s[|s| - |r| - 1] == '.' || s[|s| - |r| - 1] == '/'
  {
    if s == [] || s[|s| - 1] == '.' || s[|s| - 1] == '/' then []
    else ExtensionTail(s[..|s| - 1]) + [s[|s| - 1]]
  }

  /** The regular expression `\.[^/.]+$` matches at position `k`. */
  predicate ExtensionAt(s: string, k: int)
  {
    0 <= k < |s| - 1 && s[k] == '.' && forall j :: k < j < |s| ==> s[j] != '.' && s[j] != '/'
  }

  /** `name.replace(/\.[^/.]+$/, '')`. */
  function StripExtension(name: string): (stem: string)
  {
    var t := ExtensionTail(name);
    if 0 < |t| < |name| && name[|name| - |t| - 1] == '.' then name[..|name| - |t| - 1] else name
  }

  lemma {:induction false} ExtensionTailCovers(s: string, k: nat)
    requires forall j :: k < j < |s| ==> s[j] != '.' && s[j] != '/'
    ensures |ExtensionTail(s)| >= |s| - k - 1
    decreases |s|
  {
    if s != [] && |s| - 1 > k {
      ExtensionTailCovers(s[..|s| - 1], k);
    }
  }

  /** The stem differs from the name exactly when the name ends in `.ext`
      with a non-empty `ext` free of `.` and `/`; then only `.ext` is removed. */
  lemma StripExtensionSpec(name: string)
    ensures StripExtension(name) == name <==> forall k :: !ExtensionAt(name, k)
    ensures StripExtension(name) != name ==>
      ExtensionAt(name, |StripExtension(name)|) && StripExtension(name) == name[..|StripExtension(name)|]
  {
    var t := ExtensionTail(name);
    forall k | ExtensionAt(name, k) ensures StripExtension(name) != name {
      ExtensionTailCovers(name, k);
      assert name[k] == '.';
      assert |t| == |name| - k - 1;
    }
    if StripExtension(name) != name {
      var stem := StripExtension(name);
      assert |stem| == |name| - |t| - 1;
      assert ExtensionAt(name, |stem|);
    }
  }

  /** The decimal digits of `n`, as `n.toString()` writes them: no leading
      zero except for 0 itself. */
  function DecimalDigits(n: nat): (s: string)
    ensures |s| >= 1
    ensures forall i :: 0 <= i < |s| ==> '0' <= s[i] <= '9'
    ensures n < 10 <==> |s| == 1
    ensures n >= 10 ==> s[0] != '0'
    decreases n
  {
    if n < 10 then [(48 + n) as char] else DecimalDigits(n / 10) + [(48 + n % 10) as char]
  }

  predicate AllDigits(s: string)
  {
    forall i :: 0 <= i < |s| ==> '0' <= s[i] <= '9'
  }

  /** The number a string of decimal digits denotes (leading zeros allowed). */
  function DecimalValue(s: string): nat
    requires AllDigits(s)
  {
    if s == [] then 0 else DecimalValue(s[..|s| - 1]) * 10 + (s[|s| - 1] as int - 48)
  }

  /** Reading back the digits gives the number. */
  lemma {:induction false} DecimalRoundTrip(n: nat)
    ensures DecimalValue(DecimalDigits(n)) == n
    decreases n
  {
    if n >= 10 {
      var d := DecimalDigits(n);
      DecimalRoundTrip(n / 10);
      assert d[..|d| - 1] == DecimalDigits(n / 10);
    }
  }

  /** `s.split(sep)` of a string holding `sep` exactly once, between `a` and `b`. */
  lemma {:induction false} SplitOnce(a: string, sep: char, b: string)
    requires sep !in a && sep !in b
    ensures Split(a + [sep] + b, sep) == [a, b]
    decreases |a|
  {
    var s := a + [sep] + b;
    if a == [] {
      assert s[1..] == b;
      SplitWhole(b, sep);
    } else {
      assert s[1..] == a[1..] + [sep] + b;
      SplitOnce(a[1..], sep, b);
      assert [a[0]] + a[1..] == a;
    }
  }

  /** Splitting around one occurrence of `sep` splits each side on its own:
      the parts of `a` come first, then those of `b`. */
  lemma {:induction false} SplitAround(a: string, sep: char, b: string)
    ensures Split(a + [sep] + b, sep) == Split(a, sep) + Split(b, sep)
    decreases |a|
  {
    var s := a + [sep] + b;
    if a == [] {
      assert s == [sep] + b;
      assert s[1..] == b;
    } else {
      assert s[0] == a[0];
      assert s[1..] == a[1..] + [sep] + b;
      SplitAround(a[1..], sep, b);
    }
  }
}
