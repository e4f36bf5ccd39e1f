/** String helpers with the meaning the directory relies on: Python's
    `str.split(sep)`, `sep.join(parts)` and `str.strip()`, and the
    case-insensitive substring test behind PostgreSQL's `ILIKE '%t%'`
    (ASCII letters only). */
module Text {

  /** `sep.join(parts)`: the parts with one separator between neighbours. */
  function Join(parts: seq<string>, sep: char): string
  {
    if |parts| == 0 then ""
    else if |parts| == 1 then parts[0]
    else parts[0] + [sep] + Join(parts[1..], sep)
  }

  /** `s.split(sep)`: the maximal separator-free pieces of `s`, in order.
      Like Python, the empty string splits into one empty piece. */
  function Split(s: string, sep: char): (r: seq<string>)
    ensures |r| >= 1
    ensures forall i :: 0 <= i < |r| ==> sep !in r[i]
  {
    if |s| == 0 then [""]
    else
      var rest := Split(s[1..], sep);
      if s[0] == sep then [""] + rest
      else [[s[0]] + rest[0]] + rest[1..]
  }

  lemma JoinCons(x: string, tail: seq<string>, sep: char)
    ensures Join([x] + tail, sep) == if tail == [] then x else x + [sep] + Join(tail, sep)
  {
    assert ([x] + tail)[1..] == tail;
  }

  /** Splitting then joining gives back the original text. */
  lemma {:induction false} JoinSplit(s: string, sep: char)
    ensures Join(Split(s, sep), sep) == s
  {
    if |s| > 0 {
      var rest := Split(s[1..], sep);
      JoinSplit(s[1..], sep);
      if s[0] == sep {
        JoinCons("", rest, sep);
      } else {
        JoinCons(rest[0], rest[1..], sep);
        assert [rest[0]] + rest[1..] == rest;
        JoinCons([s[0]] + rest[0], rest[1..], sep);
      }
      assert s == [s[0]] + s[1..];
    }
  }

  lemma {:induction false} SplitWithoutSep(a: string, sep: char)
    requires sep !in a
    ensures Split(a, sep) == [a]
  {
    if |a| > 0 {
      SplitWithoutSep(a[1..], sep);
      assert [a[0]] + a[1..] == a;
    }
  }

  lemma {:induction false} SplitAfterPiece(a: string, b: string, sep: char)
    requires sep !in a
    ensures Split(a + [sep] + b, sep) == [a] + Split(b, sep)
  {
    var s := a + [sep] + b;
    if |a| == 0 {
      assert s[1..] == b;
    } else {
      assert s[1..] == a[1..] + [sep] + b;
      SplitAfterPiece(a[1..], b, sep);
      assert [a[0]] + a[1..] == a;
    }
  }

  /** Joining separator-free pieces then splitting gives back the pieces,
      provided there is at least one piece. */
  lemma {:induction false} SplitJoin(parts: seq<string>, sep: char)
    requires |parts| >= 1
    requires forall i :: 0 <= i < |parts| ==> sep !in parts[i]
    ensures Split(Join(parts, sep), sep) == parts
  {
    if |parts| == 1 {
      SplitWithoutSep(parts[0], sep);
    } else {
      SplitJoin(parts[1..], sep);
      SplitAfterPiece(parts[0], Join(parts[1..], sep), sep);
      assert [parts[0]] + parts[1..] == parts;
    }
  }

  /** The characters Python's `str.strip()` removes, restricted to ASCII:
      space, tab, line feed, vertical tab, form feed, carriage return and
      the four information separators. */
  predicate IsSpace(c: char)
  {
    c == ' ' || (9 <= c as int <= 13) || (28 <= c as int <= 31)
  }

  function TrimStart(s: string): (r: string)
    ensures |r| <= |s| && r == s[|s| - |r|..]
    ensures r == [] || !IsSpace(r[0])
    ensures forall i :: 0 <= i < |s| - |r| ==> IsSpace(s[i])
  {
    if |s| > 0 && IsSpace(s[0]) then TrimStart(s[1..]) else s
  }

  function TrimEnd(s: string): (r: string)
    ensures |r| <= |s| && r == s[..|r|]
    ensures r == [] || !IsSpace(r[|r| - 1])
    ensures forall i :: |r| <= i < |s| ==> IsSpace(s[i])
  {
    if |s| > 0 && IsSpace(s[|s| - 1]) then TrimEnd(s[..|s| - 1]) else s
  }

  /** `s.strip()`: a piece of `s` with no white space at either end, and
      only white space cut away. */
  function Strip(s: string): (r: string)
    ensures Contains(s, r)
    ensures exists k :: StrippedAt(s, r, k)
    ensures IsTrimmed(r)
    ensures !IsSpacesOnly(s) ==> r != []
  {
    TrimBoth(s);
    TrimEnd(TrimStart(s))
  }

  /** No white space at either end. */
  predicate IsTrimmed(r: string)
  {
    r == [] || (!IsSpace(r[0]) && !IsSpace(r[|r| - 1]))
  }

  /** `r` sits at offset `k` of `s` with only white space before and after
      it. */
  predicate StrippedAt(s: string, r: string, k: int)
  {
    OccursAt(s, r, k) && IsSpacesOnly(s[..k]) && IsSpacesOnly(s[k + |r|..])
  }

  lemma TrimBoth(s: string)
    ensures Contains(s, TrimEnd(TrimStart(s)))
    ensures StrippedAt(s, TrimEnd(TrimStart(s)), |s| - |TrimStart(s)|)
    ensures !IsSpacesOnly(s) ==> TrimEnd(TrimStart(s)) != []
  {
    StrippedPiece(s, TrimStart(s), TrimEnd(TrimStart(s)));
  }

  /** Cutting white space from the front of `s` (leaving `t`) and then from
      the back of `t` (leaving `r`) leaves a piece of `s` with only white
      space around it, and a non-empty one unless `s` is all white space. */
  lemma StrippedPiece(s: string, t: string, r: string)
    requires |t| <= |s| && t == s[|s| - |t|..]
    requires |r| <= |t| && r == t[..|r|]
    requires forall i :: 0 <= i < |s| - |t| ==> IsSpace(s[i])
    requires forall i :: |r| <= i < |t| ==> IsSpace(t[i])
    ensures Contains(s, r)
    ensures StrippedAt(s, r, |s| - |t|)
    ensures !IsSpacesOnly(s) ==> r != []
  {
    var k := |s| - |t|;
    PrefixOfSuffix(s, t, r);
    SpacesAround(s, t, r);
    ContainsAt(s, r, k);
    if !IsSpacesOnly(s) {
      var i :| 0 <= i < |s| && !IsSpace(s[i]);
      assert k <= i;
      assert t[i - k] == s[i];
    }
  }

  /** When the suffix `t` of `s` starts after white space only and its
      prefix `r` is followed by white space only, everything around `r` in
      `s` is white space. */
  lemma SpacesAround(s: string, t: string, r: string)
    requires |t| <= |s| && t == s[|s| - |t|..]
    requires |r| <= |t| && r == t[..|r|]
    requires forall i :: 0 <= i < |s| - |t| ==> IsSpace(s[i])
    requires forall i :: |r| <= i < |t| ==> IsSpace(t[i])
    ensures IsSpacesOnly(s[..|s| - |t|]) && IsSpacesOnly(s[|s| - |t| + |r|..])
  {
    var tail := s[|s| - |t| + |r|..];
    forall i | 0 <= i < |tail| ensures IsSpace(tail[i]) {
      assert tail[i] == t[|r| + i];
    }
  }

  /** A prefix of a suffix of `s` occurs in `s` where the suffix starts. */
  lemma PrefixOfSuffix(s: string, t: string, r: string)
    requires |t| <= |s| && t == s[|s| - |t|..]
    requires |r| <= |t| && r == t[..|r|]
    ensures OccursAt(s, r, |s| - |t|)
  {
  }

  predicate IsSpacesOnly(s: string)
  {
    forall i :: 0 <= i < |s| ==> IsSpace(s[i])
  }

  function LowerChar(c: char): char
  {
    if 'A' <= c <= 'Z' then (c as int + 32) as char else c
  }

  /** `lower(s)` restricted to ASCII letters. */
  function Lower(s: string): (r: string)
    ensures |r| == |s|
    ensures forall i :: 0 <= i < |s| ==> r[i] == LowerChar(s[i])
  {
    if |s| == 0 then "" else [LowerChar(s[0])] + Lower(s[1..])
  }

  predicate StartsWith(s: string, prefix: string)
  {
    |prefix| <= |s| && s[..|prefix|] == prefix
  }

  /** `t` is the piece of `s` that starts at offset `i`. */
  predicate OccursAt(s: string, t: string, i: int)
  {
    0 <= i <= |s| - |t| && s[i..i + |t|] == t
  }

  /** `t` occurs in `s` as a contiguous piece, at some offset. */
  function Contains(s: string, t: string): (r: bool)
    ensures r <==> exists i :: OccursAt(s, t, i)
  {
    if StartsWith(s, t) then
      assert OccursAt(s, t, 0);
      true
    else if |s| == 0 then false
    else
      ShiftOccurrence(s, t);
      Contains(s[1..], t)
  }

  lemma ShiftOccurrence(s: string, t: string)
    requires |s| > 0 && !StartsWith(s, t)
    ensures (exists i :: OccursAt(s, t, i)) <==> (exists j :: OccursAt(s[1..], t, j))
  {
    forall j | OccursAt(s[1..], t, j) ensures OccursAt(s, t, j + 1) {
      assert s[1..][j..j + |t|] == s[j + 1..j + 1 + |t|];
    }
    forall i | OccursAt(s, t, i) ensures OccursAt(s[1..], t, i - 1) {
      assert i != 0;
      assert s[1..][i - 1..i - 1 + |t|] == s[i..i + |t|];
    }
  }

  lemma ContainsAt(s: string, t: string, i: int)
    requires OccursAt(s, t, i)
    ensures Contains(s, t)
  {
  }

  /** A piece whose characters agree with those of `s` from offset `i` on,
      ignoring case, occurs in `s` ignoring case. */
  lemma MatchAt(s: string, t: string, i: nat)
    requires i + |t| <= |s|
    requires forall j :: 0 <= j < |t| ==> LowerChar(s[i + j]) == LowerChar(t[j])
    ensures Contains(Lower(s), Lower(t))
  {
    assert Lower(s)[i..i + |t|] == Lower(t);
    ContainsAt(Lower(s), Lower(t), i);
  }

  /** A piece holding a character that `s` lacks never occurs in `s`. */
  lemma MissingChar(s: string, t: string, c: char)
    requires c in t && c !in s
    ensures !Contains(s, t)
  {
    var j :| 0 <= j < |t| && t[j] == c;
    forall i ensures !OccursAt(s, t, i) {
      if 0 <= i <= |s| - |t| {
        assert s[i..i + |t|][j] == s[i + j];
        assert s[i + j] in s;
      }
    }
  }

  /** A piece whose first two characters are never adjacent in `s` never
      occurs in `s`. */
  lemma MissingPair(s: string, t: string)
    requires |t| >= 2 && forall i :: 0 <= i < |s| - 1 ==> !(s[i] == t[0] && s[i + 1] == t[1])
    ensures !Contains(s, t)
  {
    forall i ensures !OccursAt(s, t, i) {
      if 0 <= i <= |s| - |t| {
        assert s[i..i + |t|][0] == s[i];
        assert s[i..i + |t|][1] == s[i + 1];
      }
    }
  }

  /** A term whose first letter, ignoring case, is nowhere in `s` never
      occurs in `s` ignoring case. */
  lemma MissingFirstIgnoringCase(s: string, t: string)
    requires |t| > 0 && forall i :: 0 <= i < |s| ==> LowerChar(s[i]) != LowerChar(t[0])
    ensures !ContainsIgnoreCase(s, t)
  {
    var c := LowerChar(t[0]);
    assert Lower(t)[0] == c;
    forall k | 0 <= k < |s| ensures Lower(s)[k] != c {
    }
    MissingChar(Lower(s), Lower(t), c);
  }

  /** A term whose first two letters, ignoring case, are never adjacent in
      `s` never occurs in `s` ignoring case. */
  lemma MissingPairIgnoringCase(s: string, t: string)
    requires |t| >= 2
    requires forall i :: 0 <= i < |s| - 1 ==> !(LowerChar(s[i]) == LowerChar(t[0]) && LowerChar(s[i + 1]) == LowerChar(t[1]))
    ensures !ContainsIgnoreCase(s, t)
  {
    MissingPair(Lower(s), Lower(t));
  }

  /** `s ILIKE '%t%'`, with `%` and `_` in `t` read literally. */
  predicate ContainsIgnoreCase(s: string, t: string)
  {
    Contains(Lower(s), Lower(t))
  }
}
