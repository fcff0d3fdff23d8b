/**
 * The handful of JavaScript string operations the media code relies on:
 * `split`/`join` on one separator character, `startsWith`, `endsWith`,
 * `toLowerCase` (ASCII letters only) and decimal rendering of a number.
 */
module Text {

  /** JavaScript `s.startsWith(p)`. */
  predicate StartsWith(s: string, p: string) {
    |p| <= |s| && s[..|p|] == p
  }

  /** JavaScript `s.endsWith(p)`. */
  predicate EndsWith(s: string, p: string) {
    |p| <= |s| && s[|s| - |p|..] == p
  }

  /** `toLowerCase` on one character; only the ASCII letters A-Z are mapped. */
  function LowerChar(c: char): char {
    if 'A' <= c <= 'Z' then (c as int + 32) as char else c
  }

  /** `toLowerCase` on a string, character by character. */
  function Lower(s: string): string {
    seq(|s|, i requires 0 <= i < |s| => LowerChar(s[i]))
  }

  /** `parts.join(sep)` for a one-character separator. */
  function JoinOn(parts: seq<string>, sep: char): string {
    if parts == [] then []
    else if |parts| == 1 then parts[0]
    else parts[0] + [sep] + JoinOn(parts[1..], sep)
  }

  /**
   * `s.split(sep)` for a one-character separator: the maximal runs between
   * separators, always at least one (the empty string splits into [""]).
   */
  function SplitOn(s: string, sep: char): (parts: seq<string>)
    ensures |parts| >= 1
    ensures forall i :: 0 <= i < |parts| ==> sep !in parts[i]
    decreases |s|
  {
    if s == [] then [[]]
    else
      var tail := SplitOn(s[1..], sep);
      if s[0] == sep then [[]] + tail
      else [[s[0]] + tail[0]] + tail[1..]
  }

  /** Joining a piece in front of at least one more adds it and a separator. */
  lemma JoinCons(p: string, tail: seq<string>, sep: char)
    requires |tail| >= 1
    ensures JoinOn([p] + tail, sep) == p + [sep] + JoinOn(tail, sep)
  {
    assert ([p] + tail)[1..] == tail;
  }

  /** Gluing a character to the first piece puts it in front of the join. */
  lemma JoinGlue(c: char, tail: seq<string>, sep: char)
    requires |tail| >= 1
    ensures JoinOn([[c] + tail[0]] + tail[1..], sep) == [c] + JoinOn(tail, sep)
  {
    if |tail| > 1 {
      JoinCons([c] + tail[0], tail[1..], sep);
      JoinCons(tail[0], tail[1..], sep);
      assert [tail[0]] + tail[1..] == tail;
    } else {
      assert tail[1..] == [];
    }
  }

  /** Joining the pieces of a split gives back the string. */
  lemma {:induction false} JoinSplit(s: string, sep: char)
    ensures JoinOn(SplitOn(s, sep), sep) == s
    decreases |s|
  {
    if s != [] {
      var tail := SplitOn(s[1..], sep);
      JoinSplit(s[1..], sep);
      assert s == [s[0]] + s[1..];
      if s[0] == sep {
        JoinCons([], tail, sep);
      } else {
        JoinGlue(s[0], tail, sep);
      }
    }
  }

  /** Splitting `p + t` where `p` has no separator glues `p` to the first piece of `t`. */
  lemma {:induction false} SplitPrefix(p: string, t: string, sep: char)
    requires sep !in p
    ensures SplitOn(p + t, sep) == [p + SplitOn(t, sep)[0]] + SplitOn(t, sep)[1..]
    decreases |p|
  {
    if p != [] {
      var parts := SplitOn(t, sep);
      SplitPrefix(p[1..], t, sep);
      assert (p + t)[1..] == p[1..] + t;
      assert (p + t)[0] == p[0] && p[0] != sep;
      var tail := SplitOn(p[1..] + t, sep);
      assert tail == [p[1..] + parts[0]] + parts[1..];
      assert SplitOn(p + t, sep) == [[p[0]] + tail[0]] + tail[1..];
      assert [p[0]] + (p[1..] + parts[0]) == p + parts[0];
    } else {
      var parts := SplitOn(t, sep);
      assert p + t == t;
      assert p + parts[0] == parts[0];
      assert parts == [parts[0]] + parts[1..];
    }
  }

  /** Splitting a join of separator-free pieces gives back the pieces. */
  lemma {:induction false} SplitJoin(parts: seq<string>, sep: char)
    requires |parts| >= 1
    requires forall i :: 0 <= i < |parts| ==> sep !in parts[i]
    ensures SplitOn(JoinOn(parts, sep), sep) == parts
  {
    if |parts| == 1 {
      SplitPrefix(parts[0], [], sep);
      assert parts[0] + [] == parts[0];
    } else {
      var rest := JoinOn(parts[1..], sep);
      SplitJoin(parts[1..], sep);
      assert parts[0] + [sep] + rest == parts[0] + ([sep] + rest);
      SplitPrefix(parts[0], [sep] + rest, sep);
      assert ([sep] + rest)[1..] == rest;
      assert SplitOn([sep] + rest, sep) == [[]] + parts[1..];
      assert parts[0] + [] == parts[0];
      assert parts == [parts[0]] + parts[1..];
    }
  }

  /** Joining one more piece appends the separator and the piece. */
  lemma {:induction false} JoinSnoc(parts: seq<string>, p: string, sep: char)
    requires |parts| >= 1
    ensures JoinOn(parts + [p], sep) == JoinOn(parts, sep) + [sep] + p
    decreases |parts|
  {
    if |parts| == 1 {
      assert parts + [p] == [parts[0], p];
      assert [parts[0], p][1..] == [p];
    } else {
      JoinSnoc(parts[1..], p, sep);
      assert (parts + [p])[1..] == parts[1..] + [p];
    }
  }

  /**
   * `s.split(sep).pop()`: the text after the last separator, or the whole
   * string when it holds no separator.
   */
  function AfterLast(s: string, sep: char): string {
    var parts := SplitOn(s, sep);
    parts[|parts| - 1]
  }

  /**
   * What `AfterLast` means: a separator-free suffix of `s`; all of `s` when
   * `s` holds no separator, and otherwise preceded by a separator.
   */
  lemma AfterLastSpec(s: string, sep: char)
    ensures sep !in AfterLast(s, sep)
    ensures EndsWith(s, AfterLast(s, sep))
    ensures sep !in s <==> AfterLast(s, sep) == s
    ensures sep in s ==> s == s[..|s| - |AfterLast(s, sep)| - 1] + [sep] + AfterLast(s, sep)
  {
    var parts := SplitOn(s, sep);
    var r := AfterLast(s, sep);
    JoinSplit(s, sep);
    if |parts| == 1 {
      assert s == r;
    } else {
      var front := parts[..|parts| - 1];
      assert parts == front + [r];
      JoinSnoc(front, r, sep);
      assert s == JoinOn(front, sep) + [sep] + r;
      assert s[|s| - |r|..] == r;
      assert s[..|s| - |r| - 1] == JoinOn(front, sep);
      assert s[|s| - |r| - 1] == sep;
      assert r != s;
    }
  }

  predicate IsDigit(c: char) {
    '0' <= c <= '9'
  }

  function DigitChar(d: nat): char
    requires d < 10
  {
    ('0' as int + d) as char
  }

  /** JavaScript's rendering of a non-negative integer in decimal, as in a template string. */
  function NatToString(n: nat): (r: string)
    ensures |r| >= 1
    ensures forall i :: 0 <= i < |r| ==> IsDigit(r[i])
  {
    if n < 10 then [DigitChar(n)] else NatToString(n / 10) + [DigitChar(n % 10)]
  }

  function DigitValue(c: char): nat
    requires IsDigit(c)
  {
    c as int - '0' as int
  }

  /** Reads a string of decimal digits back as a number. */
  function ParseNat(s: string): nat
    requires forall i :: 0 <= i < |s| ==> IsDigit(s[i])
  {
    if s == [] then 0
    else ParseNat(s[..|s| - 1]) * 10 + DigitValue(s[|s| - 1])
  }

  /** Decimal rendering is undone by `ParseNat`. */
  lemma {:induction false} ParseNatToString(n: nat)
    ensures ParseNat(NatToString(n)) == n
  {
    var s := NatToString(n);
    if n >= 10 {
      ParseNatToString(n / 10);
      assert s[..|s| - 1] == NatToString(n / 10);
    }
  }

  /** Different numbers render differently. */
  lemma NatToStringInjective(m: nat, n: nat)
    ensures NatToString(m) == NatToString(n) ==> m == n
  {
    ParseNatToString(m);
    ParseNatToString(n);
  }
}
