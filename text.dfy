/** The handful of Python `str` operations that the application's parsers and
    dispatchers are built from: `isspace`, `strip`, `split`, `join`, `lower`,
    `endswith`, each written out with the edge cases Python gives them. */
module Text {

  /** Python's `str.isspace` for one character: the ASCII blanks, the four
      ASCII separator controls, and the Unicode space characters. */
  predicate IsSpace(c: char) {
    c == ' ' || ('\t' <= c <= '\r') || ('\U{1c}' <= c <= '\U{1f}')
    || c == '\U{85}' || c == '\U{a0}' || c == '\U{1680}'
    || ('\U{2000}' <= c <= '\U{200a}') || c == '\U{2028}' || c == '\U{2029}'
    || c == '\U{202f}' || c == '\U{205f}' || c == '\U{3000}'
  }

  predicate IsDigit(c: char) { '0' <= c <= '9' }

  // ---------------------------------------------------------------- strip

  /** `s.lstrip(...)`: drops leading characters for which `drop` holds. */
  function TrimLeft(s: string, drop: char -> bool): (r: string)
    ensures |r| <= |s| && r == s[|s| - |r|..]
    ensures r == [] || !drop(r[0])
  {
    if s != [] && drop(s[0]) then TrimLeft(s[1..], drop) else s
  }

  /** `s.rstrip(...)`: drops trailing characters for which `drop` holds. */
  function TrimRight(s: string, drop: char -> bool): (r: string)
    ensures |r| <= |s| && r == s[..|r|]
    ensures r == [] || !drop(r[|r| - 1])
  {
    if s != [] && drop(s[|s| - 1]) then TrimRight(s[..|s| - 1], drop) else s
  }

  function Trim(s: string, drop: char -> bool): string {
    TrimRight(TrimLeft(s, drop), drop)
  }

  /** `s.strip()` with no argument: strips whitespace. */
  function Strip(s: string): string {
    Trim(s, IsSpace)
  }

  /** `s.strip(chars)`: strips any mix of the characters in `chars`. */
  function StripChars(s: string, chars: string): string {
    Trim(s, c => c in chars)
  }

  lemma {:induction false} TrimLeftPrefix(p: string, x: string, drop: char -> bool)
    requires forall i :: 0 <= i < |p| ==> drop(p[i])
    requires x == [] || !drop(x[0])
    ensures TrimLeft(p + x, drop) == x
  {
    if p == [] {
      assert p + x == x;
      if x != [] { assert !drop(x[0]); }
    } else {
      assert (p + x)[1..] == p[1..] + x;
      TrimLeftPrefix(p[1..], x, drop);
    }
  }

  lemma {:induction false} TrimRightSuffix(x: string, q: string, drop: char -> bool)
    requires forall i :: 0 <= i < |q| ==> drop(q[i])
    requires x == [] || !drop(x[|x| - 1])
    ensures TrimRight(x + q, drop) == x
  {
    if q == [] {
      assert x + q == x;
    } else {
      assert (x + q)[..|x + q| - 1] == x + q[..|q| - 1];
      TrimRightSuffix(x, q[..|q| - 1], drop);
    }
  }

  /** Trimming removes exactly a droppable frame around a core that starts and
      ends with kept characters (or is empty). */
  lemma TrimFrame(p: string, x: string, q: string, drop: char -> bool)
    requires forall i :: 0 <= i < |p| ==> drop(p[i])
    requires forall i :: 0 <= i < |q| ==> drop(q[i])
    requires x == [] || (!drop(x[0]) && !drop(x[|x| - 1]))
    ensures Trim(p + x + q, drop) == x
  {
    if x == [] {
      assert p + x + q == (p + q) + x;
      TrimLeftPrefix(p + q, x, drop);
    } else {
      assert p + x + q == p + (x + q);
      TrimLeftPrefix(p, x + q, drop);
      TrimRightSuffix(x, q, drop);
    }
  }

  /** `strip(chars)` removes exactly a frame of those characters around a text whose ends are not among them. */
  lemma StripCharsFrame(p: string, x: string, q: string, chars: string)
    requires forall i :: 0 <= i < |p| ==> p[i] in chars
    requires forall i :: 0 <= i < |q| ==> q[i] in chars
    requires x == [] || (x[0] !in chars && x[|x| - 1] !in chars)
    ensures StripChars(p + x + q, chars) == x
  {
    TrimFrame(p, x, q, c => c in chars);
  }

  /** A value is blank (`v.strip() == ""`) exactly when all its characters are whitespace. */
  lemma {:induction false} StripEmptyIffAllSpace(v: string)
    ensures Strip(v) == "" <==> forall i :: 0 <= i < |v| ==> IsSpace(v[i])
  {
    if forall i :: 0 <= i < |v| ==> IsSpace(v[i]) {
      TrimLeftPrefix(v, [], IsSpace);
      assert v + [] == v;
    } else {
      var i :| 0 <= i < |v| && !IsSpace(v[i]);
      var l := TrimLeft(v, IsSpace);
      TrimLeftKeeps(v, i, IsSpace);
      assert l != [] && !IsSpace(l[0]);
      assert TrimRight(l, IsSpace) != [] by { TrimRightKeepsFirst(l, IsSpace); }
    }
  }

  lemma {:induction false} TrimLeftKeeps(s: string, i: nat, drop: char -> bool)
    requires i < |s| && !drop(s[i])
    ensures |TrimLeft(s, drop)| >= |s| - i
  {
    if s != [] && drop(s[0]) {
      assert i > 0;
      TrimLeftKeeps(s[1..], i - 1, drop);
    }
  }

  lemma {:induction false} TrimRightKeepsFirst(s: string, drop: char -> bool)
    requires s != [] && !drop(s[0])
    ensures TrimRight(s, drop) != []
  {
    if drop(s[|s| - 1]) {
      assert |s| > 1;
      TrimRightKeepsFirst(s[..|s| - 1], drop);
    }
  }

  // ---------------------------------------------------------------- split

  /** `s.split(sep)` for a one-character separator: the segments between
      separators, always at least one (possibly empty) segment. */
  function Split(s: string, sep: char): (parts: seq<string>)
    ensures |parts| >= 1
  {
    if s == [] then [""]
    else
      var rest := Split(s[1..], sep);
      if s[0] == sep then [""] + rest
      else [[s[0]] + rest[0]] + rest[1..]
  }

  lemma {:induction false} SplitNoSep(s: string, sep: char)
    requires sep !in s
    ensures Split(s, sep) == [s]
  {
    if s != [] {
      SplitNoSep(s[1..], sep);
      assert [s[0]] + s[1..] == s;
    }
  }

  /** The first separator ends the first segment. */
  lemma {:induction false} SplitAtSep(a: string, b: string, sep: char)
    requires sep !in a
    ensures Split(a + [sep] + b, sep) == [a] + Split(b, sep)
  {
    if a == [] {
      assert a + [sep] + b == [sep] + b;
      assert ([sep] + b)[1..] == b;
    } else {
      assert (a + [sep] + b)[1..] == a[1..] + [sep] + b;
      SplitAtSep(a[1..], b, sep);
      assert [a[0]] + a[1..] == a;
    }
  }

  /** The text after the last separator is the last segment (Python's `split(sep)[-1]`). */
  lemma {:induction false} SplitLast(a: string, b: string, sep: char)
    requires sep !in b
    ensures var parts := Split(a + [sep] + b, sep); parts[|parts| - 1] == b
  {
    if sep in a {
      var i :| 0 <= i < |a| && a[i] == sep;
      var k := FirstIndex(a, sep);
      assert a == a[..k] + [sep] + a[k + 1..];
      assert a + [sep] + b == a[..k] + [sep] + (a[k + 1..] + [sep] + b);
      SplitAtSep(a[..k], a[k + 1..] + [sep] + b, sep);
      SplitLast(a[k + 1..], b, sep);
    } else {
      SplitAtSep(a, b, sep);
      SplitNoSep(b, sep);
    }
  }

  /** Index of the first occurrence of `c` in `s`. */
  function FirstIndex(s: string, c: char): (k: nat)
    requires c in s
    ensures k < |s| && s[k] == c && c !in s[..k]
  {
    if s[0] == c then 0 else FirstIndex(s[1..], c) + 1
  }

  /** There are at least two segments exactly when the separator occurs. */
  lemma {:induction false} SplitHasTwo(s: string, sep: char)
    ensures |Split(s, sep)| >= 2 <==> sep in s
  {
    if sep in s {
      var k := FirstIndex(s, sep);
      assert s == s[..k] + [sep] + s[k + 1..];
      SplitAtSep(s[..k], s[k + 1..], sep);
    } else {
      SplitNoSep(s, sep);
    }
  }

  /** `s.split(sep)` cut at the first separator. */
  lemma SplitAtFirst(s: string, sep: char)
    requires sep in s
    ensures Split(s, sep) == [s[..FirstIndex(s, sep)]] + Split(s[FirstIndex(s, sep) + 1..], sep)
  {
    var k := FirstIndex(s, sep);
    assert s == s[..k] + [sep] + s[k + 1..];
    SplitAtSep(s[..k], s[k + 1..], sep);
  }

  /** The first segment is the text before the first separator. */
  lemma SplitHead(s: string, sep: char)
    ensures Split(s, sep)[0] == if sep in s then s[..FirstIndex(s, sep)] else s
  {
    if sep in s { SplitAtFirst(s, sep); } else { SplitNoSep(s, sep); }
  }

  /** The second segment of `s.split(sep)` is the text after the first separator,
      up to the next separator or the end. */
  lemma SplitSecond(s: string, sep: char)
    requires sep in s
    ensures |Split(s, sep)| >= 2
    ensures var rest := s[FirstIndex(s, sep) + 1..];
            Split(s, sep)[1] == if sep in rest then rest[..FirstIndex(rest, sep)] else rest
  {
    SplitAtFirst(s, sep);
    SplitHead(s[FirstIndex(s, sep) + 1..], sep);
  }

  // ---------------------------------------------------------------- join

  /** `sep.join(parts)`. */
  function Join(parts: seq<string>, sep: string): string {
    if |parts| == 0 then ""
    else if |parts| == 1 then parts[0]
    else parts[0] + sep + Join(parts[1..], sep)
  }

  /** A character in neither the parts nor the separator is not in the joined text. */
  lemma {:induction false} JoinFree(parts: seq<string>, sep: string, c: char)
    requires c !in sep
    requires forall i :: 0 <= i < |parts| ==> c !in parts[i]
    ensures c !in Join(parts, sep)
  {
    if |parts| > 1 {
      JoinFree(parts[1..], sep, c);
      assert c !in parts[0];
    }
  }

  /** The joined text starts with the first part and ends with the last one. */
  lemma {:induction false} JoinEnds(parts: seq<string>, sep: string)
    requires |parts| >= 1 && forall i :: 0 <= i < |parts| ==> parts[i] != []
    ensures var j := Join(parts, sep);
      j != [] && j[0] == parts[0][0] && j[|j| - 1] == parts[|parts| - 1][|parts[|parts| - 1]| - 1]
  {
    if |parts| > 1 {
      JoinEnds(parts[1..], sep);
    }
  }

  /** Joining the segments back with the separator gives the original string. */
  lemma {:induction false} SplitJoin(s: string, sep: char)
    ensures Join(Split(s, sep), [sep]) == s
  {
    if s != [] {
      SplitJoin(s[1..], sep);
      var rest := Split(s[1..], sep);
      var parts := Split(s, sep);
      assert [s[0]] + s[1..] == s;
      if s[0] == sep {
        assert parts == [""] + rest;
        assert Join(parts, [sep]) == "" + [sep] + Join(rest, [sep]);
      } else if |rest| == 1 {
        assert parts == [[s[0]] + rest[0]];
      } else {
        assert parts == [[s[0]] + rest[0]] + rest[1..];
        assert Join(rest, [sep]) == rest[0] + [sep] + Join(rest[1..], [sep]);
        assert Join(parts, [sep]) == ([s[0]] + rest[0]) + [sep] + Join(rest[1..], [sep]);
      }
    }
  }

  /** No segment contains the separator. */
  lemma {:induction false} SplitPartsFree(s: string, sep: char)
    ensures forall i :: 0 <= i < |Split(s, sep)| ==> sep !in Split(s, sep)[i]
  {
    if s != [] {
      SplitPartsFree(s[1..], sep);
      var rest := Split(s[1..], sep);
      var parts := Split(s, sep);
      if s[0] != sep {
        forall i | 0 <= i < |parts| ensures sep !in parts[i] {
          if i == 0 { assert parts[0] == [s[0]] + rest[0]; } else { assert parts[i] == rest[i]; }
        }
      }
    }
  }

  /** Splitting `x0 + (sep + t) + x1 + ...` at `sep` gives `x0`, then each later
      item with the separator's tail `t` in front (`split(',')` of `', '.join(xs)`). */
  lemma {:induction false} SplitJoined(xs: seq<string>, sep: char, t: string)
    requires |xs| >= 1
    requires forall i :: 0 <= i < |xs| ==> sep !in xs[i]
    requires sep !in t
    ensures Split(Join(xs, [sep] + t), sep) == [xs[0]] + seq(|xs| - 1, i requires 0 <= i < |xs| - 1 => t + xs[i + 1])
  {
    if |xs| == 1 {
      SplitNoSep(xs[0], sep);
    } else {
      var j := Join(xs[1..], [sep] + t);
      assert Join(xs, [sep] + t) == xs[0] + [sep] + (t + j);
      SplitAtSep(xs[0], t + j, sep);
      SplitJoined(xs[1..], sep, t);
      SplitPrefixFree(t, j, sep);
      var tail := Split(j, sep);
      assert tail == [xs[1]] + seq(|xs| - 2, i requires 0 <= i < |xs| - 2 => t + xs[i + 2]);
      assert Split(t + j, sep) == [t + tail[0]] + tail[1..];
    }
  }

  /** A separator-free prefix glues onto the first segment. */
  lemma {:induction false} SplitPrefixFree(t: string, s: string, sep: char)
    requires sep !in t
    ensures Split(t + s, sep) == [t + Split(s, sep)[0]] + Split(s, sep)[1..]
  {
    if t != [] {
      assert (t + s)[1..] == t[1..] + s;
      SplitPrefixFree(t[1..], s, sep);
      assert [t[0]] + (t[1..] + Split(s, sep)[0]) == t + Split(s, sep)[0];
    } else {
      assert t + s == s;
      var parts := Split(s, sep);
      assert t + parts[0] == parts[0];
      assert parts == [parts[0]] + parts[1..];
    }
  }

  // ---------------------------------------------------------------- split()

  /** The longest prefix of `s` free of whitespace. */
  function Word(s: string): (w: string)
    ensures |w| <= |s| && w == s[..|w|]
    ensures s != [] && !IsSpace(s[0]) ==> |w| >= 1
  {
    if s == [] || IsSpace(s[0]) then [] else [s[0]] + Word(s[1..])
  }

  /** `s.split()` with no argument: the maximal runs of non-whitespace. */
  function Words(s: string): seq<string>
    decreases |s|
  {
    if s == [] then []
    else if IsSpace(s[0]) then Words(s[1..])
    else var w := Word(s); [w] + Words(s[|w|..])
  }

  predicate IsToken(t: string) {
    t != [] && forall i :: 0 <= i < |t| ==> !IsSpace(t[i])
  }

  lemma {:induction false} WordOf(t: string, r: string)
    requires forall i :: 0 <= i < |t| ==> !IsSpace(t[i])
    requires r == [] || IsSpace(r[0])
    ensures Word(t + r) == t
  {
    if t == [] {
      assert t + r == r;
    } else {
      assert (t + r)[1..] == t[1..] + r;
      WordOf(t[1..], r);
      assert [t[0]] + t[1..] == t;
    }
  }

  /** `" ".join(tokens).split()` gives the tokens back when none is empty or holds whitespace. */
  lemma {:induction false} WordsOfJoin(ts: seq<string>)
    requires forall i :: 0 <= i < |ts| ==> IsToken(ts[i])
    ensures Words(Join(ts, " ")) == ts
  {
    if |ts| == 1 {
      WordOf(ts[0], []);
      assert ts[0] + [] == ts[0];
      assert ts[0][|ts[0]|..] == [];
    } else if |ts| > 1 {
      var j := Join(ts[1..], " ");
      var s := ts[0] + " " + j;
      assert Join(ts, " ") == s;
      assert s == ts[0] + (" " + j);
      WordOf(ts[0], " " + j);
      assert s[|ts[0]|..] == " " + j;
      assert (" " + j)[1..] == j;
      WordsOfJoin(ts[1..]);
      assert [ts[0]] + ts[1..] == ts;
    }
  }

  // ---------------------------------------------------------------- misc

  /** `str.lower` on ASCII letters; other characters are left as they are. */
  function LowerChar(c: char): char {
    if 'A' <= c <= 'Z' then (c as int + 32) as char else c
  }

  function Lower(s: string): (r: string)
    ensures |r| == |s| && forall i :: 0 <= i < |s| ==> r[i] == LowerChar(s[i])
  {
    if s == [] then [] else [LowerChar(s[0])] + Lower(s[1..])
  }

  /** `s.endswith(suffix)`. */
  predicate EndsWith(s: string, suffix: string) {
    |suffix| <= |s| && s[|s| - |suffix|..] == suffix
  }
}
