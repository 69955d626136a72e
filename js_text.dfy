/**
  The JavaScript string built-ins the site's logic relies on, over `string`. A `char` here is a
  Unicode scalar value, where JavaScript counts a character outside the Basic Multilingual Plane
  as two code units, so lengths and indices differ for such characters. Modelled: the `\s`
  character class, `trim`, `trimStart`, `trimEnd`, `indexOf`, `includes`, `startsWith`, `split`
  with a non-empty separator, joining, and the global replacements `replace(/\n/g, '<br>')` and
  `replace(/\s/g, '')`.
 */
module JsText {

  /** ECMAScript WhiteSpace and LineTerminator code points: what `\s` matches and `trim` removes. */
  predicate IsWhitespace(c: char)
  {
    || c == '\t' || c == '\n' || c == '\U{000B}' || c == '\U{000C}' || c == '\r' || c == ' '
    || c == '\U{00A0}' || c == '\U{1680}' || ('\U{2000}' <= c <= '\U{200A}')
    || c == '\U{2028}' || c == '\U{2029}' || c == '\U{202F}' || c == '\U{205F}'
    || c == '\U{3000}' || c == '\U{FEFF}'
  }

  predicate NoWhitespace(s: string)
  {
    forall i :: 0 <= i < |s| ==> !IsWhitespace(s[i])
  }

  predicate AllWhitespace(s: string)
  {
    forall i :: 0 <= i < |s| ==> IsWhitespace(s[i])
  }

  /** Number of occurrences of `c` in `s`. */
  function Count(s: string, c: char): nat
  {
    if s == [] then 0 else (if s[0] == c then 1 else 0) + Count(s[1..], c)
  }

  lemma {:induction false} CountConcat(a: string, b: string, c: char)
    ensures Count(a + b, c) == Count(a, c) + Count(b, c)
  {
    if a != [] {
      assert (a + b)[0] == a[0] && (a + b)[1..] == a[1..] + b;
      CountConcat(a[1..], b, c);
    } else {
      assert a + b == b;
    }
  }

  lemma {:induction false} CountZero(s: string, c: char)
    ensures Count(s, c) == 0 <==> forall i :: 0 <= i < |s| ==> s[i] != c
  {
    if s != [] {
      CountZero(s[1..], c);
      assert forall i :: 1 <= i < |s| ==> s[i] == s[1..][i - 1];
    }
  }

  /** `s.startsWith(p)` */
  predicate StartsWith(s: string, p: string)
  {
    |p| <= |s| && s[..|p|] == p
  }

  /** `t` occurs in `s` at index `i`. */
  predicate OccursAt(s: string, t: string, i: int)
  {
    0 <= i && i + |t| <= |s| && s[i..i + |t|] == t
  }

  lemma OccursAtTail(s: string, t: string, i: nat)
    requires s != []
    ensures OccursAt(s, t, i + 1) <==> OccursAt(s[1..], t, i)
  {
    if i + 1 + |t| <= |s| {
      assert s[i + 1..i + 1 + |t|] == s[1..][i..i + |t|];
    }
  }

  /** `s.indexOf(t)`: the first index at which `t` occurs in `s`, or -1. */
  function IndexOf(s: string, t: string): (r: int)
    ensures -1 <= r <= |s|
    ensures r == -1 <==> forall i :: 0 <= i <= |s| ==> !OccursAt(s, t, i)
    ensures r >= 0 ==> OccursAt(s, t, r) && forall i :: 0 <= i < r ==> !OccursAt(s, t, i)
    decreases |s|
  {
    if |s| < |t| then -1
    else if s[..|t|] == t then assert OccursAt(s, t, 0); 0
    else
      var k := IndexOf(s[1..], t);
      assert !OccursAt(s, t, 0);
      assert forall i :: 1 <= i <= |s| ==> (OccursAt(s, t, i) <==> OccursAt(s[1..], t, i - 1)) by {
        forall i | 1 <= i <= |s| ensures OccursAt(s, t, i) <==> OccursAt(s[1..], t, i - 1) {
          OccursAtTail(s, t, i - 1);
        }
      }
      if k < 0 then -1 else assert OccursAt(s, t, k + 1); k + 1
  }

  /** `s.includes(t)` */
  predicate Contains(s: string, t: string)
  {
    IndexOf(s, t) >= 0
  }

  lemma ContainsCharIff(s: string, c: char)
    ensures Contains(s, [c]) <==> exists i :: 0 <= i < |s| && s[i] == c
  {
    if exists i :: 0 <= i < |s| && s[i] == c {
      var i :| 0 <= i < |s| && s[i] == c;
      assert OccursAt(s, [c], i);
    }
    if Contains(s, [c]) {
      var i := IndexOf(s, [c]);
      assert s[i..i + 1] == [c];
      assert s[i] == c;
    }
  }

  lemma {:induction false} ContainsCharCount(s: string, c: char)
    ensures Contains(s, [c]) <==> Count(s, c) > 0
  {
    ContainsCharIff(s, c);
    CountZero(s, c);
  }

  /** A witness of an occurrence makes `includes` true. */
  lemma ContainsAt(s: string, t: string, i: int)
    requires OccursAt(s, t, i)
    ensures Contains(s, t)
  {
  }

  lemma ContainsInfix(a: string, t: string, b: string)
    ensures Contains(a + t + b, t)
  {
    assert (a + t + b)[|a|..|a| + |t|] == t;
    ContainsAt(a + t + b, t, |a|);
  }

  /** Every text contains itself. */
  lemma ContainsSelf(t: string)
    ensures Contains(t, t)
  {
    assert t[0..|t|] == t;
    ContainsAt(t, t, 0);
  }

  /** An occurrence of `t` in an occurrence of `m` in `s` is an occurrence of `t` in `s`. */
  lemma OccursAtCompose(s: string, m: string, t: string, i: int, j: int)
    requires OccursAt(s, m, i) && OccursAt(m, t, j)
    ensures OccursAt(s, t, i + j)
  {
    forall k | 0 <= k < |t| ensures s[i + j + k] == t[k] {
      assert s[i + j + k] == s[i..i + |m|][j + k];
      assert m[j + k] == m[j..j + |t|][k];
    }
    assert s[i + j..i + j + |t|] == t;
  }

  lemma ContainsTransitive(s: string, m: string, t: string)
    requires Contains(s, m) && Contains(m, t)
    ensures Contains(s, t)
  {
    OccursAtCompose(s, m, t, IndexOf(s, m), IndexOf(m, t));
  }

  /** An occurrence in the left part of a concatenation is an occurrence in the whole. */
  lemma ContainsLeft(a: string, b: string, t: string)
    requires Contains(a, t)
    ensures Contains(a + b, t)
  {
    var i := IndexOf(a, t);
    OccursAtCompose(a + b, a, t, 0, i);
  }

  /** An occurrence in the right part of a concatenation is an occurrence in the whole. */
  lemma ContainsRight(a: string, b: string, t: string)
    requires Contains(b, t)
    ensures Contains(a + b, t)
  {
    var i := IndexOf(b, t);
    OccursAtCompose(a + b, b, t, |a|, i);
  }

  /** `s.trimStart()` */
  function TrimStart(s: string): (r: string)
    ensures |r| <= |s| && r == s[|s| - |r|..]
    ensures AllWhitespace(s[..|s| - |r|])
    ensures r != [] ==> !IsWhitespace(r[0])
  {
    if s != [] && IsWhitespace(s[0]) then
      var r := TrimStart(s[1..]);
      assert forall k :: 1 <= k < |s| - |r| ==> s[k] == s[1..][..|s| - 1 - |r|][k - 1];
      r
    else s
  }

  /** `s.trimEnd()` */
  function TrimEnd(s: string): (r: string)
    ensures |r| <= |s| && r == s[..|r|]
    ensures AllWhitespace(s[|r|..])
    ensures r == [] ==> AllWhitespace(s)
    ensures r != [] ==> !IsWhitespace(r[|r| - 1])
  {
    if s != [] && IsWhitespace(s[|s| - 1]) then
      var r := TrimEnd(s[..|s| - 1]);
      assert s[..|s| - 1][..|r|] == s[..|r|];
      assert s[|r|..] == s[..|s| - 1][|r|..] + [s[|s| - 1]];
      r
    else s
  }

  /** `s.trim()`: `s` without its leading and trailing whitespace. */
  function Trim(s: string): (r: string)
  {
    TrimEnd(TrimStart(s))
  }

  /** `Trim(s)` is the infix of `s` left when whitespace is removed from both ends. */
  lemma TrimInfix(s: string)
    ensures exists i, j :: (0 <= i <= j <= |s| && Trim(s) == s[i..j]
                            && AllWhitespace(s[..i]) && AllWhitespace(s[j..]))
    ensures Trim(s) != [] ==> !IsWhitespace(Trim(s)[0]) && !IsWhitespace(Trim(s)[|Trim(s)| - 1])
  {
    var u := TrimStart(s);
    var i := |s| - |u|;
    var r := TrimEnd(u);
    assert s[i..i + |r|] == r;
    assert s[i + |r|..] == u[|r|..];
  }

  /** `!s.trim()`: the string is empty once trimmed. */
  predicate IsBlank(s: string)
  {
    Trim(s) == []
  }

  lemma BlankIffAllWhitespace(s: string)
    ensures IsBlank(s) <==> AllWhitespace(s)
  {
    var u := TrimStart(s);
  }

  /** `s.replace(/\s/g, '')` */
  function RemoveWhitespace(s: string): (r: string)
    ensures NoWhitespace(r)
    ensures |r| <= |s|
  {
    if s == [] then []
    else if IsWhitespace(s[0]) then RemoveWhitespace(s[1..])
    else [s[0]] + RemoveWhitespace(s[1..])
  }

  /** Removing whitespace keeps every other character, in order: it distributes over concatenation
      and leaves whitespace-free text alone. */
  lemma {:induction false} RemoveWhitespaceConcat(a: string, b: string)
    ensures RemoveWhitespace(a + b) == RemoveWhitespace(a) + RemoveWhitespace(b)
  {
    if a != [] {
      assert (a + b)[0] == a[0] && (a + b)[1..] == a[1..] + b;
      RemoveWhitespaceConcat(a[1..], b);
    } else {
      assert a + b == b;
    }
  }

  lemma {:induction false} RemoveWhitespaceKeeps(s: string)
    requires NoWhitespace(s)
    ensures RemoveWhitespace(s) == s
  {
    if s != [] {
      RemoveWhitespaceKeeps(s[1..]);
    }
  }

  lemma {:induction false} RemoveWhitespaceCount(s: string, c: char)
    ensures Count(RemoveWhitespace(s), c) == if IsWhitespace(c) then 0 else Count(s, c)
  {
    if s != [] {
      RemoveWhitespaceCount(s[1..], c);
      if !IsWhitespace(s[0]) {
        CountConcat([s[0]], RemoveWhitespace(s[1..]), c);
      }
    } else if IsWhitespace(c) {
      CountZero(RemoveWhitespace(s), c);
    }
    if IsWhitespace(c) {
      CountZero(RemoveWhitespace(s), c);
    }
  }

  /** `s.split(sep)` for a non-empty separator: the text before the first occurrence of `sep`,
      then the split of what follows that occurrence; the whole text when `sep` does not occur. */
  function Split(s: string, sep: string): (r: seq<string>)
    requires sep != []
    ensures |r| >= 1
    decreases |s|
  {
    var i := IndexOf(s, sep);
    if i < 0 then [s] else [s[..i]] + Split(s[i + |sep|..], sep)
  }

  /** `parts.join(sep)` */
  function Join(parts: seq<string>, sep: string): string
  {
    if parts == [] then ""
    else if |parts| == 1 then parts[0]
    else parts[0] + sep + Join(parts[1..], sep)
  }

  /** Joining a first part to at least one more puts the separator after it. */
  lemma JoinCons(p: string, rest: seq<string>, sep: string)
    requires |rest| >= 1
    ensures Join([p] + rest, sep) == p + sep + Join(rest, sep)
  {
    assert ([p] + rest)[1..] == rest;
  }

  /** A text is what comes before an occurrence, the occurrence, and what follows it. */
  lemma OccurrenceSplits(s: string, t: string, i: int)
    requires OccursAt(s, t, i)
    ensures s == s[..i] + t + s[i + |t|..]
  {
    assert s[i..] == s[i..i + |t|] + s[i + |t|..];
    assert s == s[..i] + s[i..];
  }

  /** The occurrence `Split` cuts at lies within the text, after the text before it. */
  lemma SplitFirstPiece(s: string, sep: string)
    requires sep != [] && IndexOf(s, sep) >= 0
    ensures var i := IndexOf(s, sep);
      && i + |sep| <= |s|
      && s == s[..i] + sep + s[i + |sep|..]
  {
    OccurrenceSplits(s, sep, IndexOf(s, sep));
  }

  /** Splitting and joining with the same separator gives the text back. */
  lemma {:induction false} JoinSplit(s: string, sep: string)
    requires sep != []
    ensures Join(Split(s, sep), sep) == s
    decreases |s|
  {
    var i := IndexOf(s, sep);
    if i >= 0 {
      SplitFirstPiece(s, sep);
      var tail := s[i + |sep|..];
      JoinSplit(tail, sep);
      JoinCons(s[..i], Split(tail, sep), sep);
    }
  }

  /** Splitting on one character yields one piece more than there are occurrences of it, and no
      piece contains it. */
  lemma SplitCharPieces(s: string, c: char)
    ensures |Split(s, [c])| == Count(s, c) + 1
    ensures forall k, j :: 0 <= k < |Split(s, [c])| && 0 <= j < |Split(s, [c])[k]| ==>
      Split(s, [c])[k][j] != c
  {
    SplitCharCount(s, c);
    SplitCharFree(s, c);
  }

  /** One piece more than there are occurrences of the character. */
  lemma {:induction false} SplitCharCount(s: string, c: char)
    ensures |Split(s, [c])| == Count(s, c) + 1
    decreases |s|
  {
    var i := IndexOf(s, [c]);
    if i < 0 {
      ContainsCharCount(s, c);
      ContainsCharIff(s, c);
    } else {
      var head, tail := s[..i], s[i + 1..];
      SplitFirstPiece(s, [c]);
      SplitCharCount(tail, c);
      CharBeforeFirst(s, c);
      CountConcat(head + [c], tail, c);
      CountConcat(head, [c], c);
    }
  }

  /** No piece contains the character. */
  lemma {:induction false} SplitCharFree(s: string, c: char)
    ensures forall k, j :: 0 <= k < |Split(s, [c])| && 0 <= j < |Split(s, [c])[k]| ==>
      Split(s, [c])[k][j] != c
    decreases |s|
  {
    var i := IndexOf(s, [c]);
    if i >= 0 {
      var head, tail := s[..i], s[i + 1..];
      SplitCharFree(tail, c);
      CharBeforeFirst(s, c);
      CountZero(head, c);
      var parts, rest := Split(s, [c]), Split(tail, [c]);
      assert parts == [head] + rest;
      forall k, j | 0 <= k < |parts| && 0 <= j < |parts[k]| ensures parts[k][j] != c {
        if k > 0 {
          assert parts[k] == rest[k - 1];
        }
      }
    } else {
      ContainsCharIff(s, c);
    }
  }

  /** The text before the first occurrence of a character does not contain it, and that
      occurrence is the character. */
  lemma CharBeforeFirst(s: string, c: char)
    requires IndexOf(s, [c]) >= 0
    ensures var i := IndexOf(s, [c]); s[i] == c && Count(s[..i], c) == 0
  {
    var i := IndexOf(s, [c]);
    assert s[i..i + 1] == [c];
    forall j | 0 <= j < i ensures s[..i][j] != c {
      assert !OccursAt(s, [c], j);
      assert s[j..j + 1] == [s[j]];
    }
    CountZero(s[..i], c);
  }

  /** `s.replace(new RegExp(c, 'g'), rep)`: every occurrence of the character `c` replaced. */
  function ReplaceChar(s: string, c: char, rep: string): (r: string)
  {
    if s == [] then []
    else (if s[0] == c then rep else [s[0]]) + ReplaceChar(s[1..], c, rep)
  }

  /** Replacing a character is splitting on it and joining with the replacement. */
  lemma {:induction false} ReplaceCharIsJoinSplit(s: string, c: char, rep: string)
    ensures ReplaceChar(s, c, rep) == Join(Split(s, [c]), rep)
    decreases |s|
  {
    var i := IndexOf(s, [c]);
    if i < 0 {
      ContainsCharCount(s, c);
      ReplaceCharAbsent(s, c, rep);
    } else {
      SplitFirstPiece(s, [c]);
      CharBeforeFirst(s, c);
      var head, tail := s[..i], s[i + 1..];
      ReplaceCharIsJoinSplit(tail, c, rep);
      ReplaceCharAround(head, c, tail, rep);
      JoinCons(head, Split(tail, [c]), rep);
    }
  }

  /** Replacing in a text with one occurrence of `c` after a part without it. */
  lemma ReplaceCharAround(head: string, c: char, tail: string, rep: string)
    requires Count(head, c) == 0
    ensures ReplaceChar(head + [c] + tail, c, rep) == head + rep + ReplaceChar(tail, c, rep)
  {
    ReplaceCharConcat(head + [c], tail, c, rep);
    ReplaceCharConcat(head, [c], c, rep);
    ReplaceCharAbsent(head, c, rep);
  }

  lemma {:induction false} ReplaceCharLength(s: string, c: char, rep: string)
    ensures |ReplaceChar(s, c, rep)| == |s| + (|rep| - 1) * Count(s, c)
  {
    if s != [] {
      ReplaceCharLength(s[1..], c, rep);
    }
  }

  lemma {:induction false} ReplaceCharRemoves(s: string, c: char, rep: string)
    requires forall j :: 0 <= j < |rep| ==> rep[j] != c
    ensures forall j :: 0 <= j < |ReplaceChar(s, c, rep)| ==> ReplaceChar(s, c, rep)[j] != c
  {
    if s != [] {
      ReplaceCharRemoves(s[1..], c, rep);
      var head := if s[0] == c then rep else [s[0]];
      assert ReplaceChar(s, c, rep) == head + ReplaceChar(s[1..], c, rep);
    }
  }

  lemma {:induction false} ReplaceCharConcat(a: string, b: string, c: char, rep: string)
    ensures ReplaceChar(a + b, c, rep) == ReplaceChar(a, c, rep) + ReplaceChar(b, c, rep)
  {
    if a != [] {
      assert (a + b)[0] == a[0] && (a + b)[1..] == a[1..] + b;
      ReplaceCharConcat(a[1..], b, c, rep);
    } else {
      assert a + b == b;
    }
  }

  lemma {:induction false} ReplaceCharAbsent(s: string, c: char, rep: string)
    requires Count(s, c) == 0
    ensures ReplaceChar(s, c, rep) == s
  {
    if s != [] {
      ReplaceCharAbsent(s[1..], c, rep);
    }
  }
}
