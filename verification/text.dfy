/**
 * The handful of Python `str` operations the client and the server rely on:
 * whitespace stripping and splitting (`strip`, `split`, `split(maxsplit=1)`),
 * ASCII case mapping (`lower`, `upper`), prefix and substring tests
 * (`startswith`, `in`), `"sep".join`, slicing past the end, and `max` over
 * strings under Python's code-point ordering.
 */
module Text {
  import opened Wrappers

  /** The code points Python's `str.isspace()` accepts. */
  predicate SpaceCodePoint(c: char) {
    || c == ' '
    || ('\t' <= c <= '\r')
    || ('\U{1C}' <= c <= '\U{1F}')
    || c == '\U{85}' || c == '\U{A0}' || c == '\U{1680}'
    || ('\U{2000}' <= c <= '\U{200A}')
    || c == '\U{2028}' || c == '\U{2029}' || c == '\U{202F}' || c == '\U{205F}' || c == '\U{3000}'
  }

  /**
   * `SpaceCodePoint`, reached through a short countdown: the verifier only
   * unfolds it on a concrete character, so proofs about arbitrary strings
   * treat whitespace as an abstract property unless they ask for
   * `IsSpaceDefinition`.
   */
  predicate SpaceAfter(c: char, n: nat)
    decreases n
  {
    if n == 0 then SpaceCodePoint(c) else SpaceAfter(c, n - 1)
  }

  /** Python's `str.isspace()` on one character: what `split()` and `strip()` treat as whitespace. */
  predicate IsSpace(c: char) {
    SpaceAfter(c, 6)
  }

  lemma IsSpaceDefinition(c: char)
    ensures IsSpace(c) <==> SpaceCodePoint(c)
  {
    assert SpaceAfter(c, 6) == SpaceAfter(c, 5) == SpaceAfter(c, 4) == SpaceAfter(c, 3);
    assert SpaceAfter(c, 3) == SpaceAfter(c, 2) == SpaceAfter(c, 1) == SpaceAfter(c, 0);
  }

  /** Printable ASCII, `!` to `~`, holds no whitespace. */
  lemma VisibleIsNotSpace(c: char)
    requires '!' <= c <= '~'
    ensures !IsSpace(c)
  {
    IsSpaceDefinition(c);
  }

  predicate NoSpace(s: string) {
    forall i {:trigger IsSpace(s[i])} :: 0 <= i < |s| ==> !IsSpace(s[i])
  }

  // ---------------------------------------------------------------------------
  // Case mapping (ASCII letters only)
  // ---------------------------------------------------------------------------

  function LowerChar(c: char): char {
    if 'A' <= c <= 'Z' then (c as int + 32) as char else c
  }

  function UpperChar(c: char): char {
    if 'a' <= c <= 'z' then (c as int - 32) as char else c
  }

  function Lower(s: string): (r: string)
    ensures |r| == |s|
    ensures forall i :: 0 <= i < |s| ==> r[i] == LowerChar(s[i])
  {
    seq(|s|, i requires 0 <= i < |s| => LowerChar(s[i]))
  }

  function Upper(s: string): (r: string)
    ensures |r| == |s|
    ensures forall i :: 0 <= i < |s| ==> r[i] == UpperChar(s[i])
  {
    seq(|s|, i requires 0 <= i < |s| => UpperChar(s[i]))
  }

  // ---------------------------------------------------------------------------
  // Prefixes, substrings, slicing
  // ---------------------------------------------------------------------------

  predicate StartsWith(s: string, prefix: string) {
    |prefix| <= |s| && s[..|prefix|] == prefix
  }

  /** `w` occurs in `s` starting at index `i`. */
  predicate OccursAt(s: string, w: string, i: int) {
    0 <= i && i + |w| <= |s| && s[i..i + |w|] == w
  }

  /** Python's `w in s` for two strings (the empty string occurs in every string). */
  predicate Contains(s: string, w: string) {
    exists i :: 0 <= i <= |s| && OccursAt(s, w, i)
  }

  /** An occurrence inside `b` is also an occurrence inside `a + b + c`, shifted by `|a|`. */
  lemma OccursInContext(a: string, b: string, c: string, w: string, i: int)
    requires OccursAt(b, w, i)
    ensures OccursAt(a + b + c, w, |a| + i)
  {
    var s := a + b + c;
    forall k | i <= k < i + |w|
      ensures s[|a| + k] == b[k]
    {
    }
    assert s[|a| + i..|a| + i + |w|] == b[i..i + |w|];
  }

  /** Python's `s[n:]` for `n >= 0`: empty when the string is shorter than `n`. */
  function DropPrefix(s: string, n: nat): (r: string)
    ensures |s| <= n ==> r == ""
    ensures n < |s| ==> |r| == |s| - n && forall i :: 0 <= i < |r| ==> r[i] == s[n + i]
  {
    if |s| <= n then "" else s[n..]
  }

  /** A string is the part before index `i`, the character at `i`, and the part after it. */
  lemma SplitAround(s: string, i: nat)
    requires i < |s|
    ensures s == s[..i] + [s[i]] + s[i + 1..]
  {
  }

  lemma ConcatAssoc(a: string, b: string, c: string)
    ensures a + (b + c) == (a + b) + c
  {
  }

  /** Dropping exactly the first part of a concatenation leaves the second. */
  lemma DropPrefixOfConcat(a: string, b: string)
    ensures DropPrefix(a + b, |a|) == b
  {
    if |b| > 0 {
      assert (a + b)[|a|..] == b;
    }
  }

  /** Index of the first occurrence of `c`, as Python's `s.find(c)` when it is not -1. */
  function IndexOf(s: string, c: char): (r: Option<nat>)
    ensures r.None? <==> c !in s
    ensures r.Some? ==> r.value < |s| && s[r.value] == c && c !in s[..r.value]
    decreases |s|
  {
    if |s| == 0 then None
    else if s[0] == c then Some(0)
    else
      match IndexOf(s[1..], c)
      case None => None
      case Some(k) =>
        assert s[..k + 1] == [s[0]] + s[1..][..k];
        Some(k + 1)
  }

  // ---------------------------------------------------------------------------
  // strip() and split()
  // ---------------------------------------------------------------------------

  /** Python's `s.lstrip()`: a suffix of `s` that does not start with whitespace. */
  function StripLeft(s: string): (r: string)
    ensures |r| <= |s| && r == s[|s| - |r|..]
    ensures |r| > 0 ==> !IsSpace(r[0])
    ensures forall i {:trigger IsSpace(s[i])} :: 0 <= i < |s| - |r| ==> IsSpace(s[i])
    decreases |s|
  {
    if |s| > 0 && IsSpace(s[0]) then StripLeft(s[1..]) else s
  }

  /** Python's `s.rstrip()`: a prefix of `s` that does not end with whitespace. */
  function StripRight(s: string): (r: string)
    ensures |r| <= |s| && r == s[..|r|]
    ensures |r| > 0 ==> !IsSpace(r[|r| - 1])
    ensures forall i {:trigger IsSpace(s[i])} :: |r| <= i < |s| ==> IsSpace(s[i])
    decreases |s|
  {
    if |s| > 0 && IsSpace(s[|s| - 1]) then StripRight(s[..|s| - 1]) else s
  }

  /** How many whitespace characters `strip()` removes from the front of `s`. */
  function LeadingSpace(s: string): nat {
    |s| - |StripLeft(s)|
  }

  /**
   * Python's `s.strip()`: the slice of `s` that remains once leading and
   * trailing whitespace is removed.
   */
  function Strip(s: string): (r: string)
    ensures |r| > 0 ==> !IsSpace(r[0]) && !IsSpace(r[|r| - 1])
  {
    var l := StripLeft(s);
    var r := StripRight(l);
    assert |r| > 0 ==> r[0] == l[0];
    r
  }

  /** What `strip()` keeps is one contiguous slice of `s`, starting after the leading whitespace. */
  lemma StripIsSlice(s: string)
    ensures LeadingSpace(s) + |Strip(s)| <= |s|
    ensures Strip(s) == s[LeadingSpace(s)..LeadingSpace(s) + |Strip(s)|]
  {
    var l := StripLeft(s);
    var r := StripRight(l);
    SliceOfSuffix(s, |s| - |l|, |r|);
  }

  lemma SliceOfSuffix(s: string, a: nat, k: nat)
    requires a + k <= |s|
    ensures s[a..][..k] == s[a..a + k]
  {
  }

  /** Everything `strip()` removes is whitespace. */
  lemma StripRemovesOnlySpace(s: string)
    ensures forall i {:trigger IsSpace(s[i])} :: 0 <= i < LeadingSpace(s) ==> IsSpace(s[i])
    ensures forall i {:trigger IsSpace(s[i])} :: LeadingSpace(s) + |Strip(s)| <= i < |s| ==> IsSpace(s[i])
  {
    var l := StripLeft(s);
    var r := StripRight(l);
    var a := |s| - |l|;
    assert l == s[a..];
    forall i | a + |r| <= i < |s|
      ensures IsSpace(s[i])
    {
      assert s[i] == l[i - a];
      assert IsSpace(l[i - a]);
    }
  }

  /** Whitespace in front of a string that starts with none is all `lstrip()` removes. */
  lemma {:induction false} StripLeftOfSpaces(sp: string, t: string)
    requires forall i {:trigger IsSpace(sp[i])} :: 0 <= i < |sp| ==> IsSpace(sp[i])
    requires |t| == 0 || !IsSpace(t[0])
    ensures StripLeft(sp + t) == t
    decreases |sp|
  {
    if |sp| == 0 {
      assert sp + t == t;
      StripLeftOfUnspaced(t);
    } else {
      assert (sp + t)[0] == sp[0];
      assert (sp + t)[1..] == sp[1..] + t;
      assert forall i {:trigger IsSpace(sp[1..][i])} :: 0 <= i < |sp| - 1 ==> IsSpace(sp[1..][i]) by {
        forall i | 0 <= i < |sp| - 1
          ensures IsSpace(sp[1..][i])
        {
          assert sp[1..][i] == sp[i + 1];
        }
      }
      StripLeftOfSpaces(sp[1..], t);
    }
  }

  lemma StripRightOfUnspaced(s: string)
    requires |s| == 0 || !IsSpace(s[|s| - 1])
    ensures StripRight(s) == s
  {
  }

  /** Lower-casing the first `n` characters is the first `n` characters of lower-casing. */
  lemma LowerPrefix(s: string, n: nat)
    requires n <= |s|
    ensures Lower(s)[..n] == Lower(s[..n])
  {
  }

  lemma StripLeftOfUnspaced(s: string)
    requires |s| == 0 || !IsSpace(s[0])
    ensures StripLeft(s) == s
  {
  }

  lemma StripOfUnpadded(s: string)
    requires |s| > 0 ==> !IsSpace(s[0]) && !IsSpace(s[|s| - 1])
    ensures Strip(s) == s
  {
    assert StripLeft(s) == s;
    assert StripRight(s) == s;
  }

  /** The longest prefix of `s` that contains no whitespace. */
  function Word(s: string): (w: string)
    ensures |w| <= |s| && w == s[..|w|]
    ensures NoSpace(w)
    ensures |w| < |s| ==> IsSpace(s[|w|])
    ensures |s| > 0 && !IsSpace(s[0]) ==> |w| > 0
    decreases |s|
  {
    if |s| > 0 && !IsSpace(s[0]) then [s[0]] + Word(s[1..]) else []
  }

  /** `Word` takes a whole space-free prefix when whitespace or the end follows it. */
  lemma {:induction false} WordOfConcat(w: string, t: string)
    requires NoSpace(w)
    requires |t| == 0 || IsSpace(t[0])
    ensures Word(w + t) == w
    decreases |w|
  {
    if |w| > 0 {
      assert (w + t)[1..] == w[1..] + t;
      assert !IsSpace(w[0]);
      WordOfConcat(w[1..], t);
    } else {
      assert w + t == t;
    }
  }

  /** Python's `s.split()`: the maximal runs of non-whitespace, in order. */
  function Tokens(s: string): seq<string>
    decreases |s|
  {
    var t := StripLeft(s);
    if |t| == 0 then []
    else
      var w := Word(t);
      [w] + Tokens(t[|w|..])
  }

  /** Every element is a non-empty run of non-whitespace. */
  predicate AllWords(ts: seq<string>) {
    forall i :: 0 <= i < |ts| ==> |ts[i]| > 0 && NoSpace(ts[i])
  }

  lemma AllWordsCons(w: string, ts: seq<string>)
    requires |w| > 0 && NoSpace(w) && AllWords(ts)
    ensures AllWords([w] + ts)
  {
    forall i | 0 <= i < |[w] + ts|
      ensures |([w] + ts)[i]| > 0 && NoSpace(([w] + ts)[i])
    {
      if i > 0 {
        assert ([w] + ts)[i] == ts[i - 1];
      }
    }
  }

  /** Every token is non-empty and free of whitespace. */
  lemma {:induction false} TokensAreWords(s: string)
    ensures AllWords(Tokens(s))
    decreases |s|
  {
    var t := StripLeft(s);
    if |t| > 0 {
      var w := Word(t);
      TokensAreWords(t[|w|..]);
      AllWordsCons(w, Tokens(t[|w|..]));
    }
  }

  /**
   * Python's `s.split(maxsplit=1)`: the first token, then (if anything but
   * whitespace follows it) the rest of the string from the next
   * non-whitespace character on, unsplit.
   */
  function SplitFirst(s: string): (parts: seq<string>)
    ensures |parts| <= 2
  {
    var t := StripLeft(s);
    if |t| == 0 then []
    else
      var w := Word(t);
      var rest := StripLeft(t[|w|..]);
      if |rest| == 0 then [w] else [w, rest]
  }

  /** A single word splits into itself. */
  lemma TokensOfWord(w: string)
    requires |w| > 0 && NoSpace(w)
    ensures Tokens(w) == [w]
  {
    StripLeftOfUnspaced(w);
    WordOfConcat(w, "");
    assert w + "" == w;
    assert w[|w|..] == "";
  }

  /** On a string that starts with no whitespace, `split()` takes the first word and goes on after it. */
  lemma TokensStep(s: string)
    requires |s| > 0 && !IsSpace(s[0])
    ensures Tokens(s) == [Word(s)] + Tokens(s[|Word(s)|..])
  {
    StripLeftOfUnspaced(s);
  }

  /** Two words separated by one space split into those two words. */
  lemma TokensOfPair(w: string, v: string)
    requires |w| > 0 && NoSpace(w)
    requires |v| > 0 && NoSpace(v)
    ensures Tokens(w + " " + v) == [w, v]
  {
    var s := w + " " + v;
    WordBeforeSpace(w, v);
    TokensStep(s);
    assert s[|w|..] == " " + v;
    assert Tokens(s) == [w] + Tokens(" " + v);
    TokensOfSpacedWord(v);
  }

  lemma WordBeforeSpace(w: string, v: string)
    requires NoSpace(w)
    ensures Word(w + " " + v) == w
  {
    ConcatAssoc(w, " ", v);
    WordOfConcat(w, " " + v);
  }

  lemma TokensOfSpacedWord(v: string)
    requires |v| > 0 && NoSpace(v)
    ensures Tokens(" " + v) == [v]
  {
    var s := " " + v;
    assert s[0] == ' ' && s[1..] == v;
    SpaceIsSpace();
    assert StripLeft(s) == StripLeft(v);
    assert !IsSpace(v[0]);
    StripLeftOfUnspaced(v);
    TokensOfStripLeft(s);
    TokensOfWord(v);
  }

  lemma SpaceIsSpace()
    ensures IsSpace(' ')
  {
    IsSpaceDefinition(' ');
  }

  lemma TokensOfStripLeft(s: string)
    ensures Tokens(StripLeft(s)) == Tokens(s)
  {
    var t := StripLeft(s);
    StripLeftOfUnspaced(t);
  }

  /**
   * `split(maxsplit=1)` agrees with the full `split()`: its first part is the
   * first token, and splitting its second part yields the remaining tokens.
   */
  lemma SplitFirstAgreesWithTokens(s: string)
    ensures |SplitFirst(s)| == 0 <==> |Tokens(s)| == 0
    ensures |SplitFirst(s)| > 0 ==> SplitFirst(s)[0] == Tokens(s)[0]
    ensures |SplitFirst(s)| == 1 ==> |Tokens(s)| == 1
    ensures |SplitFirst(s)| == 2 ==> Tokens(SplitFirst(s)[1]) == Tokens(s)[1..]
  {
    var t := StripLeft(s);
    if |t| > 0 {
      var w := Word(t);
      var x := t[|w|..];
      var rest := StripLeft(x);
      assert Tokens(s) == [w] + Tokens(x);
      TokensOfStripLeft(x);
      if |rest| == 0 {
        assert Tokens(rest) == [];
        assert SplitFirst(s) == [w];
      } else {
        assert SplitFirst(s) == [w, rest];
      }
      assert Tokens(s)[1..] == Tokens(x);
    } else {
      assert Tokens(s) == [];
      assert SplitFirst(s) == [];
    }
  }

  /** The second part of `split(maxsplit=1)` on a stripped string is itself stripped. */
  lemma SplitFirstRestUnpadded(s: string)
    requires |s| > 0 ==> !IsSpace(s[|s| - 1])
    requires |SplitFirst(s)| == 2
    ensures Strip(SplitFirst(s)[1]) == SplitFirst(s)[1]
  {
    var t := StripLeft(s);
    var w := Word(t);
    var x := t[|w|..];
    var rest := StripLeft(x);
    assert SplitFirst(s)[1] == rest;
    StripLeftKeepsLast(s);
    LastOfSuffix(t, |w|);
    StripLeftKeepsLast(x);
    StripOfUnpadded(rest);
  }

  lemma LastOfSuffix(t: string, n: nat)
    requires n < |t|
    ensures t[n..][|t| - n - 1] == t[|t| - 1]
  {
  }

  /** `lstrip()` of a string that keeps anything keeps its last character. */
  lemma StripLeftKeepsLast(s: string)
    requires |StripLeft(s)| > 0
    ensures StripLeft(s)[|StripLeft(s)| - 1] == s[|s| - 1]
  {
  }

  /**
   * On an already stripped string, `split(maxsplit=1)` yields nothing
   * exactly when the string is empty; its first part, stripped, is the
   * first token; and its second part, stripped and split, is the remaining
   * tokens.
   */
  lemma SplitFirstOfStripped(s: string)
    requires |s| > 0 ==> !IsSpace(s[0]) && !IsSpace(s[|s| - 1])
    ensures |SplitFirst(s)| == 0 <==> s == ""
    ensures |SplitFirst(s)| > 0 ==> |Tokens(s)| > 0 && Strip(SplitFirst(s)[0]) == Tokens(s)[0]
    ensures |SplitFirst(s)| == 1 ==> Tokens(s)[1..] == []
    ensures |SplitFirst(s)| == 2 ==> Tokens(Strip(SplitFirst(s)[1])) == Tokens(s)[1..]
  {
    SplitFirstAgreesWithTokens(s);
    var parts := SplitFirst(s);
    if s != "" {
      StripLeftOfUnspaced(s);
    }
    if |parts| > 0 {
      StripOfUnpadded(parts[0]);
    }
    if |parts| == 2 {
      SplitFirstRestUnpadded(s);
    }
  }

  // ---------------------------------------------------------------------------
  // "sep".join(xs)
  // ---------------------------------------------------------------------------

  function Join(sep: string, xs: seq<string>): string
    decreases |xs|
  {
    if |xs| == 0 then ""
    else if |xs| == 1 then xs[0]
    else xs[0] + sep + Join(sep, xs[1..])
  }

  /** Where the `i`-th piece starts inside `Join(sep, xs)`. */
  function JoinOffset(sep: string, xs: seq<string>, i: nat): nat
    requires i < |xs|
    decreases i
  {
    if i == 0 then 0 else |xs[0]| + |sep| + JoinOffset(sep, xs[1..], i - 1)
  }

  /**
   * Every piece appears in the joined string at its offset; right after a
   * piece comes the separator and then the next piece, and the last piece
   * ends the joined string.
   */
  lemma {:induction false} JoinPlacesEach(sep: string, xs: seq<string>, i: nat)
    requires i < |xs|
    ensures OccursAt(Join(sep, xs), xs[i], JoinOffset(sep, xs, i))
    ensures i + 1 < |xs| ==> OccursAt(Join(sep, xs), sep, JoinOffset(sep, xs, i) + |xs[i]|)
    ensures i + 1 < |xs| ==> JoinOffset(sep, xs, i) + |xs[i]| + |sep| == JoinOffset(sep, xs, i + 1)
    ensures i + 1 == |xs| ==> |Join(sep, xs)| == JoinOffset(sep, xs, i) + |xs[i]|
    decreases i
  {
    if |xs| == 1 {
      assert Join(sep, xs) == xs[0];
    } else if i == 0 {
      var j := Join(sep, xs);
      assert j == xs[0] + sep + Join(sep, xs[1..]);
      assert j[..|xs[0]|] == xs[0];
    } else {
      JoinPlacesEach(sep, xs[1..], i - 1);
      OccursInContext(xs[0] + sep, Join(sep, xs[1..]), "", xs[i], JoinOffset(sep, xs[1..], i - 1));
      assert xs[0] + sep + Join(sep, xs[1..]) + "" == Join(sep, xs);
    }
    if i + 1 < |xs| {
      JoinSeparatorAt(sep, xs, i);
    } else {
      JoinEndsWithLast(sep, xs);
    }
  }

  /** The separator sits right after every piece but the last. */
  lemma {:induction false} JoinSeparatorAt(sep: string, xs: seq<string>, i: nat)
    requires i + 1 < |xs|
    ensures OccursAt(Join(sep, xs), sep, JoinOffset(sep, xs, i) + |xs[i]|)
    decreases i
  {
    var j := Join(sep, xs);
    var rest := Join(sep, xs[1..]);
    assert j == xs[0] + sep + rest;
    if i == 0 {
      assert j[|xs[0]|..|xs[0]| + |sep|] == sep;
    } else {
      JoinSeparatorAt(sep, xs[1..], i - 1);
      OccursInContext(xs[0] + sep, rest, "", sep, JoinOffset(sep, xs[1..], i - 1) + |xs[i]|);
      assert xs[0] + sep + rest + "" == j;
    }
  }

  /** The joined string ends where its last piece ends. */
  lemma {:induction false} JoinEndsWithLast(sep: string, xs: seq<string>)
    requires |xs| > 0
    ensures |Join(sep, xs)| == JoinOffset(sep, xs, |xs| - 1) + |xs[|xs| - 1]|
    decreases |xs|
  {
    if |xs| > 1 {
      JoinEndsWithLast(sep, xs[1..]);
      assert xs[1..][|xs| - 2] == xs[|xs| - 1];
    }
  }

  /**
   * The same placement when the joined string sits between a fixed prefix
   * and suffix: the separator follows every piece but the last, and the
   * suffix follows the last.
   */
  lemma JoinInFrame(pre: string, sep: string, xs: seq<string>, post: string, i: nat)
    requires i < |xs|
    ensures OccursAt(pre + Join(sep, xs) + post, xs[i], |pre| + JoinOffset(sep, xs, i))
    ensures i + 1 < |xs| ==> OccursAt(pre + Join(sep, xs) + post, sep, |pre| + JoinOffset(sep, xs, i) + |xs[i]|)
    ensures i + 1 < |xs| ==> JoinOffset(sep, xs, i) + |xs[i]| + |sep| == JoinOffset(sep, xs, i + 1)
    ensures i + 1 == |xs| ==> OccursAt(pre + Join(sep, xs) + post, post, |pre| + JoinOffset(sep, xs, i) + |xs[i]|)
    ensures i + 1 == |xs| ==> |pre + Join(sep, xs) + post| == |pre| + JoinOffset(sep, xs, i) + |xs[i]| + |post|
  {
    var j := Join(sep, xs);
    JoinPlacesEach(sep, xs, i);
    OccursInContext(pre, j, post, xs[i], JoinOffset(sep, xs, i));
    if i + 1 < |xs| {
      OccursInContext(pre, j, post, sep, JoinOffset(sep, xs, i) + |xs[i]|);
    } else {
      assert (pre + j + post)[|pre| + |j|..] == post;
    }
  }

  /**
   * When the prefix itself ends with the separator, a separator comes right
   * before every piece, the first one included.
   */
  lemma JoinPieceFollowsSeparator(pre: string, sep: string, xs: seq<string>, post: string, i: nat)
    requires i < |xs|
    requires |sep| <= |pre| && pre[|pre| - |sep|..] == sep
    ensures OccursAt(pre + Join(sep, xs) + post, sep, |pre| + JoinOffset(sep, xs, i) - |sep|)
  {
    var j := Join(sep, xs);
    if i == 0 {
      SuffixOccursInContext(pre, j, post, sep);
    } else {
      JoinSeparatorBefore(sep, xs, i - 1);
      OccursInContext(pre, j, post, sep, JoinOffset(sep, xs, i) - |sep|);
    }
  }

  /** Every piece but the first comes right after a separator. */
  lemma JoinSeparatorBefore(sep: string, xs: seq<string>, i: nat)
    requires i + 1 < |xs|
    ensures JoinOffset(sep, xs, i + 1) >= |sep|
    ensures OccursAt(Join(sep, xs), sep, JoinOffset(sep, xs, i + 1) - |sep|)
  {
    var a := JoinOffset(sep, xs, i) + |xs[i]|;
    JoinOffsetStep(sep, xs, i);
    JoinSeparatorAt(sep, xs, i);
    assert a == JoinOffset(sep, xs, i + 1) - |sep|;
  }


  /** The offsets of consecutive pieces are one piece and one separator apart. */
  lemma {:induction false} JoinOffsetStep(sep: string, xs: seq<string>, i: nat)
    requires i + 1 < |xs|
    ensures JoinOffset(sep, xs, i) + |xs[i]| + |sep| == JoinOffset(sep, xs, i + 1)
    decreases i
  {
    if i > 0 {
      JoinOffsetStep(sep, xs[1..], i - 1);
    }
  }

  /** A word that ends `a` occurs in `a + b + c` right where it ends in `a`. */
  lemma SuffixOccursInContext(a: string, b: string, c: string, w: string)
    requires |w| <= |a| && a[|a| - |w|..] == w
    ensures OccursAt(a + b + c, w, |a| - |w|)
  {
    var s := a + b + c;
    assert s[|a| - |w|..|a|] == a[|a| - |w|..];
  }

  /**
   * `"\n".join(xs)` inside a string `s` after a prefix that ends a line:
   * every piece sits on a line of its own, with a newline right before it
   * and, right after it, the newline before the next piece or, for the last
   * piece, the suffix.
   */
  lemma JoinLinesInFrame(s: string, pre: string, xs: seq<string>, post: string, i: nat)
    requires s == pre + Join("\n", xs) + post
    requires i < |xs|
    requires |pre| > 0 && pre[|pre| - 1] == '\n'
    ensures OccursAt(s, xs[i], |pre| + JoinOffset("\n", xs, i))
    ensures OccursAt(s, "\n", |pre| + JoinOffset("\n", xs, i) - 1)
    ensures i + 1 < |xs| ==> OccursAt(s, "\n", |pre| + JoinOffset("\n", xs, i) + |xs[i]|)
    ensures i + 1 < |xs| ==> JoinOffset("\n", xs, i) + |xs[i]| + 1 == JoinOffset("\n", xs, i + 1)
    ensures i + 1 == |xs| ==> OccursAt(s, post, |pre| + JoinOffset("\n", xs, i) + |xs[i]|)
    ensures i + 1 == |xs| ==> |s| == |pre| + JoinOffset("\n", xs, i) + |xs[i]| + |post|
  {
    assert pre[|pre| - 1..] == "\n";
    JoinInFrame(pre, "\n", xs, post, i);
    JoinPieceFollowsSeparator(pre, "\n", xs, post, i);
  }

  // ---------------------------------------------------------------------------
  // Python string ordering and max()
  // ---------------------------------------------------------------------------

  /** `a <= b` on Python strings: lexicographic by code point, a proper prefix sorts first. */
  predicate LexLe(a: string, b: string)
    decreases |a|
  {
    |a| == 0 || (|b| > 0 && (a[0] < b[0] || (a[0] == b[0] && LexLe(a[1..], b[1..]))))
  }

  lemma LexLeReflexive(a: string)
    ensures LexLe(a, a)
    decreases |a|
  {
    if |a| > 0 {
      LexLeReflexive(a[1..]);
    }
  }

  lemma LexLeTotal(a: string, b: string)
    ensures LexLe(a, b) || LexLe(b, a)
    decreases |a|
  {
    if |a| > 0 && |b| > 0 && a[0] == b[0] {
      LexLeTotal(a[1..], b[1..]);
    }
  }

  lemma LexLeTransitive(a: string, b: string, c: string)
    requires LexLe(a, b) && LexLe(b, c)
    ensures LexLe(a, c)
    decreases |a|
  {
    if |a| > 0 && a[0] == b[0] && b[0] == c[0] {
      LexLeTransitive(a[1..], b[1..], c[1..]);
    }
  }

  /**
   * Python's `max(xs)` on a non-empty list of strings: it keeps the running
   * maximum and replaces it only by a strictly greater element.
   */
  function MaxString(xs: seq<string>): (m: string)
    requires |xs| > 0
    ensures m in xs
    ensures forall x :: x in xs ==> LexLe(x, m)
    decreases |xs|
  {
    if |xs| == 1 then
      LexLeReflexive(xs[0]);
      xs[0]
    else
      var init := xs[..|xs| - 1];
      var m := MaxString(init);
      var x := xs[|xs| - 1];
      assert xs == init + [x];
      LexLeTotal(x, m);
      LexLeReflexive(x);
      if !LexLe(x, m) then
        assert forall y :: y in init ==> LexLe(y, x) by {
          forall y | y in init
            ensures LexLe(y, x)
          {
            LexLeTransitive(y, m, x);
          }
        }
        x
      else
        m
  }

  /** Python's `max(xs, default=d)`. */
  function MaxStringOr(xs: seq<string>, d: string): (m: string)
    ensures |xs| == 0 ==> m == d
    ensures |xs| > 0 ==> m in xs && forall x :: x in xs ==> LexLe(x, m)
  {
    if |xs| == 0 then d else MaxString(xs)
  }
}
