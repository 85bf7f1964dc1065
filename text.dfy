/** The Python string operations the cleaning rules use: `strip`, `upper`,
    `lower`, `split`, `in` on substrings and single-character `replace`. */
module Text {

  /** `str.isspace()` for one character: the ASCII white space, the
      separators 0x1C-0x1F, NEL, NO-BREAK SPACE and the Unicode space
      separators. */
  predicate IsSpace(c: char) {
    c == ' ' || c == '\t' || c == '\n' || c == '\r'
    || c as int == 0x0B || c as int == 0x0C
    || (0x1C <= c as int <= 0x1F) || c as int == 0x85 || c as int == 0xA0
    || c as int == 0x1680 || (0x2000 <= c as int <= 0x200A)
    || c as int == 0x2028 || c as int == 0x2029 || c as int == 0x202F
    || c as int == 0x205F || c as int == 0x3000
  }

  /** `s.lstrip()` */
  function TrimLeft(s: string): (r: string)
    ensures |r| <= |s| && r == s[|s| - |r|..]
    ensures |r| > 0 ==> !IsSpace(r[0])
    ensures forall i :: 0 <= i < |s| - |r| ==> IsSpace(s[i])
  {
    if |s| > 0 && IsSpace(s[0]) then TrimLeft(s[1..]) else s
  }

  /** `s.rstrip()` */
  function TrimRight(s: string): (r: string)
    ensures |r| <= |s| && r == s[..|r|]
    ensures |r| > 0 ==> !IsSpace(r[|r| - 1])
    ensures forall i :: |r| <= i < |s| ==> IsSpace(s[i])
  {
    if |s| > 0 && IsSpace(s[|s| - 1]) then TrimRight(s[..|s| - 1]) else s
  }

  /** `s.strip()`: a slice of s with no white space at either end. */
  function Strip(s: string): (r: string)
    ensures |r| <= |s|
    ensures |r| > 0 ==> !IsSpace(r[0]) && !IsSpace(r[|r| - 1])
  {
    TrimRight(TrimLeft(s))
  }

  lemma TrimLeftNoSpace(s: string)
    requires |s| > 0 ==> !IsSpace(s[0])
    ensures TrimLeft(s) == s
  {
  }

  lemma TrimRightNoSpace(s: string)
    requires |s| > 0 ==> !IsSpace(s[|s| - 1])
    ensures TrimRight(s) == s
  {
  }

  /** Stripping twice is stripping once. */
  lemma StripIdempotent(s: string)
    ensures Strip(Strip(s)) == Strip(s)
  {
    var t := Strip(s);
    TrimLeftNoSpace(t);
    TrimRightNoSpace(t);
  }

  function UpperChar(c: char): char {
    if 'a' <= c <= 'z' then (c as int - 32) as char else c
  }

  function LowerChar(c: char): char {
    if 'A' <= c <= 'Z' then (c as int + 32) as char else c
  }

  /** `s.upper()` on the ASCII letters. */
  function Upper(s: string): (r: string)
    ensures |r| == |s| && forall i :: 0 <= i < |s| ==> r[i] == UpperChar(s[i])
  {
    if |s| == 0 then [] else [UpperChar(s[0])] + Upper(s[1..])
  }

  /** `s.lower()` on the ASCII letters. */
  function Lower(s: string): (r: string)
    ensures |r| == |s| && forall i :: 0 <= i < |s| ==> r[i] == LowerChar(s[i])
  {
    if |s| == 0 then [] else [LowerChar(s[0])] + Lower(s[1..])
  }

  lemma UpperIdempotent(s: string)
    ensures Upper(Upper(s)) == Upper(s)
  {
    assert forall i :: 0 <= i < |s| ==> Upper(Upper(s))[i] == Upper(s)[i];
  }

  lemma LowerIdempotent(s: string)
    ensures Lower(Lower(s)) == Lower(s)
  {
    assert forall i :: 0 <= i < |s| ==> Lower(Lower(s))[i] == Lower(s)[i];
  }

  /** Upper-casing keeps white space where it was, so it commutes with
      stripping. */
  lemma {:induction false} UpperStrip(s: string)
    ensures Strip(Upper(s)) == Upper(Strip(s))
  {
    UpperTrimLeft(s);
    UpperTrimRight(TrimLeft(s));
  }

  lemma {:induction false} UpperTrimLeft(s: string)
    ensures TrimLeft(Upper(s)) == Upper(TrimLeft(s))
  {
    if |s| > 0 {
      var u := Upper(s);
      assert u[1..] == Upper(s[1..]);
      UpperKeepsSpace(s[0]);
      assert IsSpace(u[0]) == IsSpace(s[0]);
      if IsSpace(s[0]) {
        UpperTrimLeft(s[1..]);
      }
    }
  }

  lemma {:induction false} UpperTrimRight(s: string)
    ensures TrimRight(Upper(s)) == Upper(TrimRight(s))
  {
    if |s| > 0 {
      var u := Upper(s);
      assert u[..|s| - 1] == Upper(s[..|s| - 1]);
      UpperKeepsSpace(s[|s| - 1]);
      assert IsSpace(u[|u| - 1]) == IsSpace(s[|s| - 1]);
      if IsSpace(s[|s| - 1]) {
        UpperTrimRight(s[..|s| - 1]);
      }
    }
  }

  /** Upper-casing neither makes nor removes white space. */
  lemma UpperKeepsSpace(c: char)
    ensures IsSpace(UpperChar(c)) == IsSpace(c)
  {
  }

  /** `s.split(sep)` for a one-character separator. */
  function Split(s: string, sep: char): (r: seq<string>)
    ensures |r| >= 1
    ensures forall k :: 0 <= k < |r| ==> sep !in r[k]
  {
    if sep !in s then [s]
    else
      var i := IndexOf(s, sep);
      [s[..i]] + Split(s[i + 1..], sep)
  }

  function IndexOf(s: string, c: char): (i: nat)
    requires c in s
    ensures i < |s| && s[i] == c && c !in s[..i]
  {
    if s[0] == c then 0 else 1 + IndexOf(s[1..], c)
  }

  /** `sep.join(parts)` */
  function Join(parts: seq<string>, sep: char): string
    requires |parts| >= 1
  {
    if |parts| == 1 then parts[0] else parts[0] + [sep] + Join(parts[1..], sep)
  }

  /** Joining the pieces back gives the string that was split. */
  lemma {:induction false} SplitJoin(s: string, sep: char)
    ensures Join(Split(s, sep), sep) == s
  {
    if sep in s {
      var i := IndexOf(s, sep);
      var rest := s[i + 1..];
      SplitJoin(rest, sep);
      JoinCons(s[..i], Split(rest, sep), sep);
      assert s == s[..i] + [sep] + rest;
    }
  }

  /** Joining a piece in front of at least one more puts a separator
      between them. */
  lemma JoinCons(a: string, parts: seq<string>, sep: char)
    requires |parts| >= 1
    ensures Join([a] + parts, sep) == a + [sep] + Join(parts, sep)
  {
    assert ([a] + parts)[1..] == parts;
  }

  /** A string with no separator splits into itself. */
  lemma SplitNone(s: string, sep: char)
    requires sep !in s
    ensures Split(s, sep) == [s]
  {
  }

  /** The piece before the first separator is the first piece. */
  lemma SplitFirst(x: string, y: string, sep: char)
    requires sep !in x
    ensures Split(x + [sep] + y, sep)[0] == x
  {
    var s := x + [sep] + y;
    assert s[|x|] == sep;
    assert s[..|x|] == x;
  }

  /** Splitting at the first separator, found at position i. */
  lemma SplitAt(s: string, sep: char, i: nat)
    requires i < |s| && s[i] == sep && sep !in s[..i]
    ensures Split(s, sep) == [s[..i]] + Split(s[i + 1..], sep)
  {
    assert sep in s;
    var j := IndexOf(s, sep);
  }

  /** The first separator of x + [sep] + y: the first one of x, or the
      one in the middle. */
  lemma SplitMiddle(x: string, y: string, sep: char)
    ensures sep in x ==>
      (Split(x + [sep] + y, sep) == [x[..IndexOf(x, sep)]] + Split(x[IndexOf(x, sep) + 1..] + [sep] + y, sep))
    ensures sep !in x ==> Split(x + [sep] + y, sep) == [x] + Split(y, sep)
  {
    var s := x + [sep] + y;
    if sep in x {
      var j := IndexOf(x, sep);
      assert s[..j] == x[..j];
      assert s[j + 1..] == x[j + 1..] + [sep] + y;
      SplitAt(s, sep, j);
    } else {
      assert s[..|x|] == x;
      assert s[|x| + 1..] == y;
      SplitAt(s, sep, |x|);
    }
  }

  /** The piece after the last separator is the last piece. */
  lemma {:induction false} SplitLast(x: string, y: string, sep: char)
    requires sep !in y
    ensures var r := Split(x + [sep] + y, sep); r[|r| - 1] == y
  {
    SplitMiddle(x, y, sep);
    if sep in x {
      var j := IndexOf(x, sep);
      SplitLast(x[j + 1..], y, sep);
    } else {
      SplitNone(y, sep);
    }
  }

  lemma ConsAssoc<T>(h: T, a: seq<T>, b: seq<T>)
    ensures [h] + (a + b) == ([h] + a) + b
  {
  }

  lemma HeadTail<T>(s: seq<T>)
    requires |s| > 0
    ensures s == [s[0]] + s[1..]
  {
  }

  /** A separator splits the pieces of the two sides apart. */
  lemma {:induction false} SplitConcat(x: string, y: string, sep: char)
    ensures Split(x + [sep] + y, sep) == Split(x, sep) + Split(y, sep)
  {
    SplitMiddle(x, y, sep);
    if sep in x {
      var j := IndexOf(x, sep);
      SplitConcat(x[j + 1..], y, sep);
      SplitAt(x, sep, j);
      ConsAssoc(x[..j], Split(x[j + 1..], sep), Split(y, sep));
    } else {
      SplitNone(x, sep);
    }
  }

  /** Splitting a join gives the parts back when none holds the
      separator. */
  lemma {:induction false} JoinSplit(parts: seq<string>, sep: char)
    requires |parts| >= 1
    requires forall k :: 0 <= k < |parts| ==> sep !in parts[k]
    ensures Split(Join(parts, sep), sep) == parts
  {
    if |parts| > 1 {
      JoinSplit(parts[1..], sep);
      SplitConcat(parts[0], Join(parts[1..], sep), sep);
      SplitNone(parts[0], sep);
      HeadTail(parts);
    } else {
      SplitNone(parts[0], sep);
    }
  }

  /** The n characters of s from position i. */
  function Slice(s: string, i: nat, n: nat): string
    requires i + n <= |s|
  {
    s[i..i + n]
  }

  /** Python's `sub in s`. */
  predicate Contains(s: string, sub: string) {
    exists i: nat :: i + |sub| <= |s| && Slice(s, i, |sub|) == sub
  }

  /** `s.replace(a, b)` for one character a and a replacement text b. */
  function ReplaceChar(s: string, a: char, b: string): (r: string)
    ensures a !in b ==> a !in r
  {
    if |s| == 0 then []
    else (if s[0] == a then b else [s[0]]) + ReplaceChar(s[1..], a, b)
  }

  lemma {:induction false} ReplaceCharAbsent(s: string, a: char, b: string)
    requires a !in s
    ensures ReplaceChar(s, a, b) == s
  {
    if |s| > 0 {
      ReplaceCharAbsent(s[1..], a, b);
    }
  }

  /** Python's `a <= b` on strings: code point by code point, a proper
      prefix first. */
  predicate StrLe(a: string, b: string) {
    |a| == 0 || (|b| > 0 && (a[0] < b[0] || (a[0] == b[0] && StrLe(a[1..], b[1..]))))
  }

  /** Any two strings are ordered one way or the other. */
  lemma {:induction false} StrLeTotal(a: string, b: string)
    ensures StrLe(a, b) || StrLe(b, a)
  {
    if |a| > 0 && |b| > 0 && a[0] == b[0] {
      StrLeTotal(a[1..], b[1..]);
    }
  }

  /** Replacing a character by one character keeps the length and
      changes exactly the positions that held it. */
  lemma {:induction false} ReplaceCharOne(s: string, a: char, b: char)
    ensures |ReplaceChar(s, a, [b])| == |s|
    ensures forall i :: 0 <= i < |s| ==>
      ReplaceChar(s, a, [b])[i] == (if s[i] == a then b else s[i])
  {
    if |s| > 0 {
      ReplaceCharOne(s[1..], a, b);
      var r := ReplaceChar(s, a, [b]);
      assert r == (if s[0] == a then [b] else [s[0]]) + ReplaceChar(s[1..], a, [b]);
      forall i | 0 <= i < |s|
        ensures r[i] == (if s[i] == a then b else s[i])
      {
        if i > 0 {
          assert r[i] == ReplaceChar(s[1..], a, [b])[i - 1];
        }
      }
    }
  }

  /** A text that neither starts nor ends with white space is its own
      strip. */
  lemma StripNoSpace(s: string)
    requires |s| > 0 ==> !IsSpace(s[0]) && !IsSpace(s[|s| - 1])
    ensures Strip(s) == s
  {
    TrimLeftNoSpace(s);
    TrimRightNoSpace(s);
  }

  /** `s.strip(c)`: drop the character c at both ends. */
  function StripChar(s: string, c: char): (r: string)
    ensures |r| <= |s|
    ensures |r| > 0 ==> r[0] != c && r[|r| - 1] != c
  {
    if |s| > 0 && s[0] == c then StripChar(s[1..], c)
    else if |s| > 0 && s[|s| - 1] == c then StripChar(s[..|s| - 1], c)
    else s
  }
}
