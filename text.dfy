/** Python string operations the pipeline is written with, on `seq<char>`. */
module Text {

  /** `sub in s` for strings: `sub` occurs somewhere in `s`. */
  predicate Contains(s: string, sub: string)
    decreases |s|
  {
    if |s| < |sub| then false
    else s[..|sub|] == sub || Contains(s[1..], sub)
  }

  /** `sub` occurs in `s` starting at index `i`. */
  predicate OccursAt(s: string, sub: string, i: int)
  {
    0 <= i && i + |sub| <= |s| && s[i..i + |sub|] == sub
  }

  /** `s.split(sep)` for a non-empty separator: the pieces between the
      leftmost non-overlapping occurrences of `sep`, scanning left to right. */
  function Split(s: string, sep: string): (r: seq<string>)
    requires |sep| > 0
    ensures |r| >= 1
    decreases |s|
  {
    if |s| < |sep| then [s]
    else if s[..|sep|] == sep then [""] + Split(s[|sep|..], sep)
    else
      var rest := Split(s[1..], sep);
      [[s[0]] + rest[0]] + rest[1..]
  }

  /** `sep.join(parts)`. */
  function Join(parts: seq<string>, sep: string): string
  {
    if |parts| == 0 then ""
    else if |parts| == 1 then parts[0]
    else parts[0] + sep + Join(parts[1..], sep)
  }

  /** Joining three parts writes the separator between them. */
  lemma JoinThree(a: string, b: string, c: string, sep: string)
    ensures Join([a, b, c], sep) == a + sep + b + sep + c
  {
    assert [a, b, c][1..] == [b, c];
    assert [b, c][1..] == [c];
    assert Join([b, c], sep) == b + sep + c;
    assert Join([a, b, c], sep) == a + sep + (b + sep + c);
  }

  /** `s.replace(pat, repl)`: every leftmost non-overlapping occurrence of
      `pat` is replaced, which is exactly joining the pieces of the split. */
  function Replace(s: string, pat: string, repl: string): string
    requires |pat| > 0
  {
    Join(Split(s, pat), repl)
  }

  /** Number of occurrences of the character `c` in `s` (pandas
      `str.count(c)` for a one-character pattern). */
  function CountChar(s: string, c: char): nat
  {
    multiset(s)[c]
  }

  /** A string of one character never contains a string that starts with another. */
  lemma {:induction false} NotContainsWithoutFirst(s: string, sub: string)
    requires |sub| > 0 && sub[0] !in s
    ensures !Contains(s, sub)
  {
    if |s| >= |sub| {
      assert s[..|sub|][0] == s[0];
      assert s[0] in s;
      NotContainsWithoutFirst(s[1..], sub);
    }
  }

  /** A single-character pattern occurs exactly when the character does. */
  lemma {:induction false} ContainsChar(s: string, c: char)
    ensures Contains(s, [c]) <==> c in s
  {
    if |s| >= 1 {
      ContainsChar(s[1..], c);
      assert s == [s[0]] + s[1..];
    }
  }

  /** A string without the separator is split into itself alone. */
  lemma {:induction false} SplitNoSep(s: string, sep: string)
    requires |sep| > 0 && !Contains(s, sep)
    ensures Split(s, sep) == [s]
  {
    if |s| >= |sep| {
      SplitNoSep(s[1..], sep);
      assert [s[0]] + s[1..] == s;
    }
  }

  /** Splitting `x + sep + y`, when `sep` starts nowhere inside `x`, cuts
      off `x` as the first piece and splits the rest on its own. */
  lemma {:induction false} SplitAt(x: string, sep: string, y: string)
    requires |sep| > 0
    requires forall i :: 0 <= i < |x| ==> !OccursAt(x + sep + y, sep, i)
    ensures Split(x + sep + y, sep) == [x] + Split(y, sep)
  {
    var s := x + sep + y;
    if |x| == 0 {
      assert s[..|sep|] == sep;
      assert s[|sep|..] == y;
    } else {
      assert !OccursAt(s, sep, 0);
      assert s[1..] == x[1..] + sep + y;
      forall i | 0 <= i < |x[1..]|
        ensures !OccursAt(x[1..] + sep + y, sep, i)
      {
        assert !OccursAt(s, sep, i + 1);
        assert (x[1..] + sep + y)[i..i + |sep|] == s[i + 1..i + 1 + |sep|];
      }
      SplitAt(x[1..], sep, y);
      assert [x[0]] + x[1..] == x;
    }
  }

  /** Joining the pieces of a split gives back the string. */
  lemma {:induction false} JoinSplit(s: string, sep: string)
    requires |sep| > 0
    ensures Join(Split(s, sep), sep) == s
    decreases |s|
  {
    if |s| < |sep| {
    } else if s[..|sep|] == sep {
      JoinSplit(s[|sep|..], sep);
      JoinSplitAtSep(s, sep);
    } else {
      JoinSplit(s[1..], sep);
      JoinSplitAtChar(s, sep);
    }
  }

  /** An empty first part puts the separator in front of the joined rest. */
  lemma JoinConsEmpty(parts: seq<string>, sep: string)
    requires |parts| >= 1
    ensures Join([""] + parts, sep) == sep + Join(parts, sep)
  {
    assert ([""] + parts)[1..] == parts;
  }

  /** The step of `JoinSplit` for a string that starts with the separator. */
  lemma JoinSplitAtSep(s: string, sep: string)
    requires |sep| > 0 && |s| >= |sep| && s[..|sep|] == sep
    requires Join(Split(s[|sep|..], sep), sep) == s[|sep|..]
    ensures Join(Split(s, sep), sep) == s
  {
    var rest := Split(s[|sep|..], sep);
    assert s[..|sep|] + s[|sep|..] == s;
    assert Split(s, sep) == [""] + rest;
    JoinConsEmpty(rest, sep);
  }

  /** Prefixing the first part with a character prefixes the joined string with it. */
  lemma JoinConsFirst(c: char, parts: seq<string>, sep: string)
    requires |parts| >= 1
    ensures Join([[c] + parts[0]] + parts[1..], sep) == [c] + Join(parts, sep)
  {
    var r := [[c] + parts[0]] + parts[1..];
    if |parts| > 1 {
      assert r[1..] == parts[1..];
    }
  }

  /** The step of `JoinSplit` for a string that does not start with the separator. */
  lemma JoinSplitAtChar(s: string, sep: string)
    requires |sep| > 0 && |s| >= |sep| && s[..|sep|] != sep
    requires Join(Split(s[1..], sep), sep) == s[1..]
    ensures Join(Split(s, sep), sep) == s
  {
    var rest := Split(s[1..], sep);
    var r := [[s[0]] + rest[0]] + rest[1..];
    assert Split(s, sep) == r;
    JoinConsFirst(s[0], rest, sep);
    assert [s[0]] + s[1..] == s;
  }

  /** `sub in s` holds exactly when `sub` occurs at some index of `s`. */
  lemma {:induction false} ContainsOccurs(s: string, sub: string)
    requires |sub| > 0
    ensures Contains(s, sub) <==> exists i :: OccursAt(s, sub, i)
    decreases |s|
  {
    if |s| >= |sub| {
      ContainsOccurs(s[1..], sub);
      if Contains(s, sub) {
        if s[..|sub|] == sub {
          assert OccursAt(s, sub, 0);
        } else {
          var i :| OccursAt(s[1..], sub, i);
          assert s[1..][i..i + |sub|] == s[i + 1..i + 1 + |sub|];
          assert OccursAt(s, sub, i + 1);
        }
      }
      if exists i :: OccursAt(s, sub, i) {
        var i :| OccursAt(s, sub, i);
        if i > 0 {
          assert s[1..][i - 1..i - 1 + |sub|] == s[i..i + |sub|];
          assert OccursAt(s[1..], sub, i - 1);
        }
      }
    }
  }

  /** A string cut once by a separator, whose first part cannot start the
      separator anywhere and whose second part does not contain it, splits
      back into its two parts. */
  lemma SplitInTwo(x: string, sep: string, y: string)
    requires |sep| > 0 && sep[0] !in x && !Contains(y, sep)
    ensures Split(x + sep + y, sep) == [x, y]
  {
    forall i | 0 <= i < |x|
      ensures !OccursAt(x + sep + y, sep, i)
    {
      assert (x + sep + y)[i] == x[i];
    }
    SplitAt(x, sep, y);
    SplitNoSep(y, sep);
  }

  /** Replacing a pattern that occurs only at the very end of the string. */
  lemma ReplaceAtEnd(x: string, pat: string, repl: string)
    requires |pat| > 0
    requires forall i :: 0 <= i < |x| ==> !OccursAt(x + pat + "", pat, i)
    ensures Replace(x + pat, pat, repl) == x + repl
  {
    SplitAt(x, pat, "");
    assert Split("", pat) == [""];
    assert x + pat + "" == x + pat;
    assert Split(x + pat, pat) == [x, ""];
    assert [x, ""][1..] == [""];
    assert Join([x, ""], repl) == x + repl + "";
    assert x + repl + "" == x + repl;
  }

  /** A split gives several pieces exactly when the separator occurs. */
  lemma {:induction false} SplitSeveralContains(s: string, sep: string)
    requires |sep| > 0
    ensures |Split(s, sep)| >= 2 <==> Contains(s, sep)
    decreases |s|
  {
    if |s| >= |sep| && s[..|sep|] != sep {
      SplitSeveralContains(s[1..], sep);
    }
  }

  /** The first piece of a split is a prefix of the string. */
  lemma {:induction false} SplitFirstPrefix(s: string, sep: string)
    requires |sep| > 0
    ensures Split(s, sep)[0] <= s
    decreases |s|
  {
    if |s| >= |sep| && s[..|sep|] != sep {
      SplitFirstPrefix(s[1..], sep);
      assert s == [s[0]] + s[1..];
    }
  }

  /** No piece of a split contains the separator. */
  lemma {:induction false} SplitPiecesNoSep(s: string, sep: string)
    requires |sep| > 0
    ensures forall p :: p in Split(s, sep) ==> !Contains(p, sep)
    decreases |s|
  {
    if |s| < |sep| {
    } else if s[..|sep|] == sep {
      SplitPiecesNoSep(s[|sep|..], sep);
    } else {
      var rest := Split(s[1..], sep);
      SplitPiecesNoSep(s[1..], sep);
      SplitFirstPrefix(s[1..], sep);
      var q := [s[0]] + rest[0];
      assert rest[0] in rest;
      assert q[1..] == rest[0];
      if |q| >= |sep| {
        assert q[..|sep|] == s[..|sep|];
      }
      forall p | p in [q] + rest[1..]
        ensures !Contains(p, sep)
      {
        if p != q {
          assert p in rest;
        }
      }
    }
  }

  /** Index of the first occurrence of the character `c` in `s`. */
  function FirstIndex(s: string, c: char): (i: nat)
    requires c in s
    ensures i < |s| && s[i] == c
    ensures forall k :: 0 <= k < i ==> s[k] != c
  {
    if s[0] == c then 0
    else
      assert s == [s[0]] + s[1..];
      1 + FirstIndex(s[1..], c)
  }

  /** No piece of a split on one character contains that character. */
  lemma {:induction false} SplitPiecesAvoid(s: string, c: char)
    ensures forall p :: p in Split(s, [c]) ==> c !in p
  {
    if |s| >= 1 {
      SplitPiecesAvoid(s[1..], c);
      if s[..1] != [c] {
        assert s[0] != c by { assert s[..1] == [s[0]]; }
        var rest := Split(s[1..], [c]);
        assert rest[0] in rest;
        forall p | p in rest[1..] ensures p in rest {
        }
      } else {
        assert s[1..] == s[|[c]|..];
      }
    }
  }

  /** Every character of a piece of a split comes from the string. */
  lemma {:induction false} SplitPiecesFrom(s: string, sep: string)
    requires |sep| > 0
    ensures forall p, ch :: p in Split(s, sep) && ch in p ==> ch in s
  {
    if |s| >= |sep| {
      if s[..|sep|] == sep {
        SplitPiecesFrom(s[|sep|..], sep);
        forall ch | ch in s[|sep|..] ensures ch in s {
          var k :| 0 <= k < |s[|sep|..]| && s[|sep|..][k] == ch;
          assert s[|sep| + k] == ch;
        }
      } else {
        SplitPiecesFrom(s[1..], sep);
        var rest := Split(s[1..], sep);
        assert rest[0] in rest;
        forall ch | ch in s[1..] ensures ch in s {
          var k :| 0 <= k < |s[1..]| && s[1..][k] == ch;
          assert s[1 + k] == ch;
        }
        forall p | p in rest[1..] ensures p in rest {
        }
      }
    }
  }

  /** A character in no part and not in the separator is not in the join. */
  lemma {:induction false} JoinAvoids(parts: seq<string>, sep: string, c: char)
    requires c !in sep
    requires forall p :: p in parts ==> c !in p
    ensures c !in Join(parts, sep)
  {
    if |parts| > 1 {
      assert parts[0] in parts;
      forall p | p in parts[1..] ensures c !in p {
        assert p in parts;
      }
      JoinAvoids(parts[1..], sep, c);
    }
  }

  /** Splitting on one character yields one piece more than it occurs. */
  lemma {:induction false} SplitCount(s: string, c: char)
    ensures |Split(s, [c])| == CountChar(s, c) + 1
  {
    if |s| >= 1 {
      assert s == [s[0]] + s[1..];
      assert multiset(s) == multiset([s[0]]) + multiset(s[1..]);
      if s[..1] == [c] {
        assert s[0] == c;
        assert s[1..] == s[|[c]|..];
        SplitCount(s[1..], c);
      } else {
        assert s[0] != c by { assert s[..1] == [s[0]]; }
        SplitCount(s[1..], c);
      }
    }
  }

  /** Splitting a join on a character absent from the parts gives the parts back. */
  lemma {:induction false} SplitJoin(parts: seq<string>, c: char)
    requires |parts| >= 1
    requires forall p :: p in parts ==> c !in p
    ensures Split(Join(parts, [c]), [c]) == parts
  {
    assert parts[0] in parts;
    if |parts| == 1 {
      ContainsChar(parts[0], c);
      SplitNoSep(parts[0], [c]);
    } else {
      var x, y := parts[0], Join(parts[1..], [c]);
      forall i | 0 <= i < |x| ensures !OccursAt(x + [c] + y, [c], i) {
        assert (x + [c] + y)[i..i + 1] == [x[i]];
      }
      SplitAt(x, [c], y);
      forall p | p in parts[1..] ensures c !in p {
        assert p in parts;
      }
      SplitJoin(parts[1..], c);
      assert parts == [x] + parts[1..];
    }
  }

  /** The first piece of a split on one character is the longest prefix
      free of that character. */
  lemma {:induction false} SplitFirst(s: string, c: char)
    ensures Split(s, [c])[0] <= s
    ensures c !in Split(s, [c])[0]
    ensures |Split(s, [c])[0]| < |s| ==> s[|Split(s, [c])[0]|] == c
  {
    if |s| >= 1 {
      if s[..1] != [c] {
        assert s[0] != c by { assert s[..1] == [s[0]]; }
        SplitFirst(s[1..], c);
        assert s == [s[0]] + s[1..];
      } else {
        assert s[0] == c;
      }
    }
  }

  /** A character outside `s` and outside `repl` is outside the replacement. */
  lemma ReplaceAvoids(s: string, pat: string, repl: string, c: char)
    requires |pat| > 0 && c !in s && c !in repl
    ensures c !in Replace(s, pat, repl)
  {
    SplitPiecesFrom(s, pat);
    JoinAvoids(Split(s, pat), repl, c);
  }

  /** Replacing every occurrence of a character by a text without it
      leaves none. */
  lemma ReplaceCharAvoids(s: string, c: char, repl: string)
    requires c !in repl
    ensures c !in Replace(s, [c], repl)
  {
    SplitPiecesAvoid(s, c);
    JoinAvoids(Split(s, [c]), repl, c);
  }

  /** The decimal digit for `d < 10`. */
  function DigitChar(d: nat): (ch: char)
    requires d < 10
    ensures '0' <= ch <= '9'
  {
    "0123456789"[d]
  }

  predicate IsDigit(ch: char)
  {
    '0' <= ch <= '9'
  }

  /** `str(n)` for a natural number. */
  function NatToStr(n: nat): (r: string)
    ensures |r| >= 1 && forall k :: 0 <= k < |r| ==> IsDigit(r[k])
    decreases n
  {
    if n < 10 then [DigitChar(n)] else NatToStr(n / 10) + [DigitChar(n % 10)]
  }

  /** `str(i)` for an integer: a minus sign before the digits of `-i`. */
  function IntToStr(i: int): (r: string)
    ensures |r| >= 1 && forall k :: 0 <= k < |r| ==> IsDigit(r[k]) || r[k] == '-'
  {
    if i < 0 then "-" + NatToStr(-i) else NatToStr(i)
  }
}
