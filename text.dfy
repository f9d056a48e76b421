/**
 * The JavaScript string built-ins the pages rely on (`startsWith`, `split`,
 * `join`, `trim`, `toUpperCase`), over ASCII. Unicode whitespace and
 * non-ASCII case mapping are outside the model.
 */
module Text {

  /** `s.startsWith(prefix)`. */
  predicate StartsWith(s: string, prefix: string)
  {
    |prefix| <= |s| && s[..|prefix|] == prefix
  }

  /** `s.split(sep)` for a one-character separator: the maximal pieces between separators. */
  function Split(s: string, sep: char): (pieces: seq<string>)
    ensures |pieces| >= 1
    ensures forall i :: 0 <= i < |pieces| ==> sep !in pieces[i]
    decreases |s|
  {
    if |s| == 0 then [""]
    else if s[0] == sep then [""] + Split(s[1..], sep)
    else
      var rest := Split(s[1..], sep);
      [[s[0]] + rest[0]] + rest[1..]
  }

  /** `parts.join(sep)`; the empty array joins to "". */
  function Join(parts: seq<string>, sep: string): (r: string)
    ensures |parts| == 0 ==> r == ""
    ensures |parts| >= 1 ==> |parts[0]| <= |r| && r[..|parts[0]|] == parts[0]
    decreases |parts|
  {
    if |parts| == 0 then ""
    else if |parts| == 1 then parts[0]
    else parts[0] + sep + Join(parts[1..], sep)
  }

  /** Joining the pieces back with the separator restores the string. */
  lemma {:induction false} JoinSplit(s: string, sep: char)
    ensures Join(Split(s, sep), [sep]) == s
    decreases |s|
  {
    if |s| > 0 {
      var t := s[1..];
      assert s == [s[0]] + t;
      SplitCons(s[0], t, sep);
      JoinSplit(t, sep);
      var rest := Split(t, sep);
      if s[0] == sep {
        JoinCons("", rest, [sep]);
      } else {
        JoinCons([s[0]] + rest[0], rest[1..], [sep]);
        assert [rest[0]] + rest[1..] == rest;
        JoinCons(rest[0], rest[1..], [sep]);
      }
    }
  }

  /** One unfolding of `Join` at the first part. */
  lemma {:induction false} JoinCons(p: string, ps: seq<string>, sep: string)
    ensures |ps| == 0 ==> Join([p] + ps, sep) == p
    ensures |ps| > 0 ==> Join([p] + ps, sep) == p + sep + Join(ps, sep)
  {
    assert ([p] + ps)[0] == p && ([p] + ps)[1..] == ps;
  }

  lemma {:induction false} SplitWithoutSeparator(a: string, sep: char)
    requires sep !in a
    ensures Split(a, sep) == [a]
    decreases |a|
  {
    if |a| > 0 {
      assert sep !in a[1..] by {
        forall k | 0 <= k < |a| - 1 ensures a[1..][k] != sep { assert a[1..][k] == a[k + 1]; }
      }
      SplitWithoutSeparator(a[1..], sep);
      assert a == [a[0]] + a[1..];
    }
  }

  lemma {:induction false} SplitAfterPiece(a: string, rest: string, sep: char)
    requires sep !in a
    ensures Split(a + [sep] + rest, sep) == [a] + Split(rest, sep)
    decreases |a|
  {
    if |a| == 0 {
      assert a + [sep] + rest == [sep] + rest;
      assert ([sep] + rest)[1..] == rest;
    } else {
      var s := a + [sep] + rest;
      assert s[0] == a[0];
      assert s[1..] == a[1..] + [sep] + rest;
      assert sep !in a[1..] by {
        forall k | 0 <= k < |a| - 1 ensures a[1..][k] != sep { assert a[1..][k] == a[k + 1]; }
      }
      SplitAfterPiece(a[1..], rest, sep);
      assert [a[0]] + a[1..] == a;
    }
  }

  /** Splitting at one separator splits the text on each side of it on its own. */
  lemma {:induction false} SplitConcat(a: string, b: string, sep: char)
    ensures Split(a + [sep] + b, sep) == Split(a, sep) + Split(b, sep)
    decreases |a|
  {
    if |a| == 0 {
      assert a + [sep] + b == [sep] + b;
      SplitCons(sep, b, sep);
    } else {
      var t := a[1..] + [sep] + b;
      assert a + [sep] + b == [a[0]] + t;
      assert a == [a[0]] + a[1..];
      SplitConcat(a[1..], b, sep);
      SplitCons(a[0], t, sep);
      SplitCons(a[0], a[1..], sep);
      if a[0] != sep {
        FirstPieceOfConcat(Split(a[1..], sep), Split(b, sep), [a[0]]);
      }
    }
  }

  /** One unfolding of `Split` at the first character. */
  lemma {:induction false} SplitCons(c: char, t: string, sep: char)
    ensures c == sep ==> Split([c] + t, sep) == [""] + Split(t, sep)
    ensures c != sep ==> Split([c] + t, sep) == [[c] + Split(t, sep)[0]] + Split(t, sep)[1..]
  {
    assert ([c] + t)[0] == c && ([c] + t)[1..] == t;
  }

  /** Extending the first piece of a concatenation of piece lists extends the first list's first piece. */
  lemma {:induction false} FirstPieceOfConcat(x: seq<string>, y: seq<string>, c: string)
    requires |x| >= 1
    ensures [c + (x + y)[0]] + (x + y)[1..] == ([c + x[0]] + x[1..]) + y
  {
    assert (x + y)[0] == x[0];
    assert (x + y)[1..] == x[1..] + y;
  }

  /** Splitting a join of separator-free pieces gives the pieces back. */
  lemma {:induction false} SplitJoin(parts: seq<string>, sep: char)
    requires |parts| >= 1
    requires forall i :: 0 <= i < |parts| ==> sep !in parts[i]
    ensures Split(Join(parts, [sep]), sep) == parts
    decreases |parts|
  {
    if |parts| == 1 {
      SplitWithoutSeparator(parts[0], sep);
    } else {
      SplitJoin(parts[1..], sep);
      SplitAfterPiece(parts[0], Join(parts[1..], [sep]), sep);
      assert [parts[0]] + parts[1..] == parts;
    }
  }

  /** The ASCII whitespace that `String.prototype.trim` removes. */
  predicate IsSpace(c: char)
  {
    c == ' ' || c == '\t' || c == '\n' || c == '\r' || c == '\U{000B}' || c == '\U{000C}'
  }

  /** Neither the first nor the last character is whitespace. */
  predicate NoOuterSpace(s: string)
  {
    |s| == 0 || (!IsSpace(s[0]) && !IsSpace(s[|s| - 1]))
  }

  /** Drops the leading whitespace: the result is the suffix after the longest all-space prefix. */
  function TrimStart(s: string): (r: string)
    ensures |r| <= |s| && r == s[|s| - |r|..]
    ensures |r| == 0 || !IsSpace(r[0])
    ensures forall k :: 0 <= k < |s| - |r| ==> IsSpace(s[k])
    decreases |s|
  {
    if |s| > 0 && IsSpace(s[0]) then TrimStart(s[1..]) else s
  }

  /** Drops the trailing whitespace: the result is the prefix before the longest all-space suffix. */
  function TrimEnd(s: string): (r: string)
    ensures |r| <= |s| && r == s[..|r|]
    ensures |r| == 0 || !IsSpace(r[|r| - 1])
    ensures forall k :: |r| <= k < |s| ==> IsSpace(s[k])
    decreases |s|
  {
    if |s| > 0 && IsSpace(s[|s| - 1]) then TrimEnd(s[..|s| - 1]) else s
  }

  /** The number of leading whitespace characters of `s`. */
  function LeadingSpace(s: string): (n: nat)
    ensures n <= |s|
    ensures forall k :: 0 <= k < n ==> IsSpace(s[k])
    ensures n == |s| || !IsSpace(s[n])
  {
    |s| - |TrimStart(s)|
  }

  /** `s.trim()`; `TrimRemovesOuterSpace` states exactly what it cuts off. */
  function Trim(s: string): (r: string)
    ensures NoOuterSpace(r)
  {
    TrimEnd(TrimStart(s))
  }

  /**
   * `s.trim()` is the slice of `s` that starts after its leading whitespace:
   * everything cut off at either end is whitespace, and the slice itself
   * neither starts nor ends with whitespace.
   */
  lemma {:induction false} TrimRemovesOuterSpace(s: string)
    ensures LeadingSpace(s) + |Trim(s)| <= |s|
    ensures Trim(s) == s[LeadingSpace(s)..LeadingSpace(s) + |Trim(s)|]
    ensures forall k :: LeadingSpace(s) + |Trim(s)| <= k < |s| ==> IsSpace(s[k])
  {
    var t := TrimStart(s);
    PrefixOfSuffix(s, t, TrimEnd(t), |s| - |t|);
  }

  /** A prefix of a suffix of `s` is a slice of `s`. */
  lemma {:induction false} PrefixOfSuffix(s: string, t: string, r: string, i: nat)
    requires i <= |s| && t == s[i..] && |r| <= |t| && r == t[..|r|]
    ensures i + |r| <= |s| && r == s[i..i + |r|]
    ensures forall k :: i + |r| <= k < |s| ==> s[k] == t[k - i]
  {
  }

  /** Trimming never introduces a character. */
  lemma {:induction false} TrimKeepsAbsent(s: string, c: char)
    requires c !in s
    ensures c !in Trim(s)
  {
    var t := TrimStart(s);
    assert t == s[|s| - |t|..];
    assert Trim(s) == t[..|Trim(s)|];
    forall k | 0 <= k < |Trim(s)| ensures Trim(s)[k] != c {
      assert Trim(s)[k] == s[|s| - |t| + k];
    }
  }

  /** Trimming a string without outer whitespace, with or without one extra leading blank, is the identity. */
  lemma {:induction false} TrimOfTrimmed(t: string)
    requires NoOuterSpace(t)
    ensures Trim(t) == t
    ensures Trim([' '] + t) == t
  {
    assert TrimStart(t) == t;
    assert TrimEnd(t) == t;
    assert ([' '] + t)[1..] == t;
    assert TrimStart([' '] + t) == t;
  }

  /** ASCII `toUpperCase` of one character. */
  function UpperChar(c: char): (u: char)
    ensures 'a' <= c <= 'z' ==> u as int == c as int - 32
    ensures !('a' <= c <= 'z') ==> u == c
  {
    if 'a' <= c <= 'z' then (c as int - 32) as char else c
  }

  /** The length JavaScript reports for a string: one UTF-16 code unit per character, two above U+FFFF. */
  function Utf16Length(s: string): (n: nat)
    ensures |s| <= n <= 2 * |s|
    ensures (forall k :: 0 <= k < |s| ==> s[k] as int <= 0xFFFF) ==> n == |s|
    decreases |s|
  {
    if |s| == 0 then 0
    else (if s[0] as int <= 0xFFFF then 1 else 2) + Utf16Length(s[1..])
  }

  /** The code-unit length of two strings laid end to end is the sum of their lengths. */
  lemma {:induction false} Utf16LengthAppend(a: string, b: string)
    ensures Utf16Length(a + b) == Utf16Length(a) + Utf16Length(b)
    decreases |a|
  {
    if |a| > 0 {
      Utf16LengthAppend(a[1..], b);
      assert (a + b)[1..] == a[1..] + b;
    } else {
      assert a + b == b;
    }
  }

  /** `parts.filter(part => part)`: the non-empty strings, in order. */
  function NonEmptyPieces(parts: seq<string>): (r: seq<string>)
    ensures forall i :: 0 <= i < |r| ==> r[i] != ""
    ensures forall p :: p in r <==> p in parts && p != ""
    decreases |parts|
  {
    if |parts| == 0 then []
    else (if parts[0] == "" then [] else [parts[0]]) + NonEmptyPieces(parts[1..])
  }

  /** The filter works piece by piece: it keeps the order and the repetitions of the non-empty pieces. */
  lemma {:induction false} NonEmptyPiecesAppend(a: seq<string>, b: seq<string>)
    ensures NonEmptyPieces(a + b) == NonEmptyPieces(a) + NonEmptyPieces(b)
    decreases |a|
  {
    if |a| == 0 {
      assert a + b == b;
    } else {
      NonEmptyPiecesAppend(a[1..], b);
      assert (a + b)[1..] == a[1..] + b;
    }
  }
}
