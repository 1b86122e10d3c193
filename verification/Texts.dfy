/**
 What the shared text helpers mean, said about positions in the text and not about how they
 walk through it.
 */
module Texts {
  import opened PyJson

  // ----- characters -----

  const DIGITS: string := "0123456789"
  const LOWER: string := "abcdefghijklmnopqrstuvwxyz"
  const UPPER: string := "ABCDEFGHIJKLMNOPQRSTUVWXYZ"

  /** White space as str.strip sees it. */
  const SPACES: string :=
    "\t\n\U{b}\U{c}\r \U{1c}\U{1d}\U{1e}\U{1f}\U{85}\U{a0}\U{1680}\U{2000}\U{2001}\U{2002}\U{2003}\U{2004}\U{2005}\U{2006}\U{2007}\U{2008}\U{2009}\U{200a}\U{2028}\U{2029}\U{202f}\U{205f}\U{3000}"

  lemma DigitIff(c: char)
    ensures IsDigit(c) <==> c in DIGITS
  {
    if IsDigit(c) {
      assert DIGITS[c as int - '0' as int] == c;
    }
  }

  lemma LowerIff(c: char)
    ensures IsLower(c) <==> c in LOWER
  {
    if IsLower(c) {
      assert LOWER[c as int - 'a' as int] == c;
    }
  }

  lemma UpperIff(c: char)
    ensures IsUpper(c) <==> c in UPPER
  {
    if IsUpper(c) {
      assert UPPER[c as int - 'A' as int] == c;
    }
  }

  lemma AlnumIff(c: char)
    ensures IsAlnum(c) <==> c in DIGITS || c in LOWER || c in UPPER
  {
    DigitIff(c);
    LowerIff(c);
    UpperIff(c);
  }

  lemma SpaceIff(c: char)
    ensures IsSpace(c) <==> c in SPACES
  {
    if IsSpace(c) {
      SpaceListed(c);
    }
    if c in SPACES {
      ListedSpace(c);
    }
  }

  lemma ListedSpace(c: char)
    requires c in SPACES
    ensures IsSpace(c)
  {
  }

  lemma SpaceListed(c: char)
    requires IsSpace(c)
    ensures c in SPACES
  {
    assert SPACES[0] == '\t' && SPACES[1] == '\n' && SPACES[2] == '\U{b}' && SPACES[3] == '\U{c}' && SPACES[4] == '\r' && SPACES[5] == ' ';
    assert SPACES[6] == '\U{1c}' && SPACES[7] == '\U{1d}' && SPACES[8] == '\U{1e}' && SPACES[9] == '\U{1f}';
    assert SPACES[10] == '\U{85}' && SPACES[11] == '\U{a0}' && SPACES[12] == '\U{1680}';
    assert '\U{2000}' <= c <= '\U{200a}' ==> SPACES[13 + (c as int - 0x2000)] == c;
    assert SPACES[24] == '\U{2028}' && SPACES[25] == '\U{2029}' && SPACES[26] == '\U{202f}' && SPACES[27] == '\U{205f}' && SPACES[28] == '\U{3000}';
  }

  // ----- stripping -----

  /** `core` is the stretch from `a` to `b`: white space outside, and none at its ends. */
  ghost predicate CoreAt(s: string, core: string, a: nat, b: nat) {
    && a <= b <= |s| && s[a..b] == core
    && (forall i | 0 <= i < a :: s[i] in SPACES) && (forall i | b <= i < |s| :: s[i] in SPACES)
    && (core != "" ==> core[0] !in SPACES && core[|core| - 1] !in SPACES)
  }

  ghost predicate Core(s: string, core: string) {
    exists a: nat, b: nat :: CoreAt(s, core, a, b)
  }

  lemma CoreEnds(s: string, x: string, a: nat, b: nat)
    requires CoreAt(s, x, a, b)
    ensures x != "" ==> s[a] !in SPACES && s[b - 1] !in SPACES
    ensures x == "" ==> forall i | 0 <= i < |s| :: s[i] in SPACES
  {
    if x != "" {
      assert s[a] == x[0] && s[b - 1] == x[|x| - 1];
    }
  }

  lemma CoreUnique(s: string, x: string, y: string)
    requires Core(s, x) && Core(s, y)
    ensures x == y
  {
    var a: nat, b: nat :| CoreAt(s, x, a, b);
    var c: nat, d: nat :| CoreAt(s, y, c, d);
    CoreEnds(s, x, a, b);
    CoreEnds(s, y, c, d);
    assert x != "" && y != "" ==> a == c && b == d;
  }

  lemma StripIsCore(s: string)
    ensures Core(s, Strip(s))
  {
    var a, b := StripSlice(s);
    StripEnds(s);
    SlicesAreCore(s, Strip(s), a, b);
  }

  lemma SlicesAreCore(s: string, r: string, a: nat, b: nat)
    requires SpacesOutside(s, a, b) && r == s[a..b] && (r != "" ==> !IsSpace(r[0]) && !IsSpace(r[|r| - 1]))
    ensures CoreAt(s, r, a, b)
  {
    forall i | 0 <= i < a || b <= i < |s| ensures s[i] in SPACES {
      SpaceIff(s[i]);
    }
    if r != "" {
      SpaceIff(r[0]);
      SpaceIff(r[|r| - 1]);
    }
  }

  lemma StripEnds(s: string)
    ensures Strip(s) != "" ==> !IsSpace(Strip(s)[0]) && !IsSpace(Strip(s)[|Strip(s)| - 1])
  {
    StripLeftIs(s);
    StripRightIs(StripLeft(s));
    if Strip(s) != "" {
      assert Strip(s)[0] == StripLeft(s)[0];
    }
  }

  /** Stripping finds the core. */
  lemma StripIff(s: string, core: string)
    ensures Strip(s) == core <==> Core(s, core)
  {
    StripIsCore(s);
    if Core(s, core) {
      CoreUnique(s, core, Strip(s));
    }
  }

  // ----- splitting -----

  /** A stretch between two separators, or a separator and an end, without one inside. */
  ghost predicate Piece(s: string, sep: char, i: nat, j: nat) {
    i <= j <= |s| && (i == 0 || s[i - 1] == sep) && (j == |s| || s[j] == sep) && sep !in s[i..j]
  }

  ghost predicate HasPiece(s: string, sep: char, part: string) {
    exists i: nat, j: nat :: Piece(s, sep, i, j) && s[i..j] == part
  }

  /** The first piece is what stands before the first separator. */
  lemma {:induction false} FirstPiece(s: string, sep: char)
    ensures var p := SplitOn(s, sep)[0];
            && |p| <= |s| && s[..|p|] == p && sep !in p && (|p| == |s| || s[|p|] == sep)
            && SplitOn(s, sep)[1..] == if |p| == |s| then [] else SplitOn(s[|p| + 1..], sep)
  {
    if s != "" && s[0] == sep {
      assert SplitOn(s, sep) == [""] + SplitOn(s[1..], sep);
    } else if s != "" {
      FirstPiece(s[1..], sep);
      LongerPiece(s, sep, SplitOn(s[1..], sep));
    }
  }

  lemma LongerPiece(s: string, sep: char, rest: seq<string>)
    requires s != "" && s[0] != sep && rest == SplitOn(s[1..], sep)
    requires var p := rest[0];
             && |p| <= |s| - 1 && s[1..][..|p|] == p && sep !in p && (|p| == |s| - 1 || s[1..][|p|] == sep)
             && rest[1..] == if |p| == |s| - 1 then [] else SplitOn(s[1..][|p| + 1..], sep)
    ensures var p := SplitOn(s, sep)[0];
            && |p| <= |s| && s[..|p|] == p && sep !in p && (|p| == |s| || s[|p|] == sep)
            && SplitOn(s, sep)[1..] == if |p| == |s| then [] else SplitOn(s[|p| + 1..], sep)
  {
    var q := rest[0];
    assert SplitOn(s, sep) == [[s[0]] + q] + rest[1..];
    assert |q| < |s| - 1 ==> s[1..][|q| + 1..] == s[|q| + 2..];
  }

  /** Splitting gives exactly the pieces. */
  lemma {:induction false} SplitIff(s: string, sep: char, part: string)
    ensures part in SplitOn(s, sep) <==> HasPiece(s, sep, part)
    decreases |s|
  {
    FirstPiece(s, sep);
    var p := SplitOn(s, sep)[0];
    assert part in SplitOn(s, sep) <==> part == p || part in SplitOn(s, sep)[1..];
    PieceCases(s, sep, |p|, part);
    if |p| < |s| {
      SplitIff(s[|p| + 1..], sep, part);
    }
  }

  lemma PieceCases(s: string, sep: char, n: nat, part: string)
    requires n <= |s| && sep !in s[..n] && (n == |s| || s[n] == sep)
    ensures HasPiece(s, sep, part) <==> part == s[..n] || (n < |s| && HasPiece(s[n + 1..], sep, part))
  {
    if part == s[..n] {
      assert Piece(s, sep, 0, n) && s[0..n] == part;
    }
    if n < |s| && HasPiece(s[n + 1..], sep, part) {
      LaterPiece(s, sep, n, part);
    }
    if HasPiece(s, sep, part) {
      var i: nat, j: nat :| Piece(s, sep, i, j) && s[i..j] == part;
      FirstOrLater(s, sep, n, i, j);
      if i > n {
        PieceOfTail(s, sep, n + 1, i - n - 1, j - n - 1);
      }
    }
  }

  lemma LaterPiece(s: string, sep: char, n: nat, part: string)
    requires n < |s| && s[n] == sep && HasPiece(s[n + 1..], sep, part)
    ensures HasPiece(s, sep, part)
  {
    var i: nat, j: nat :| Piece(s[n + 1..], sep, i, j) && s[n + 1..][i..j] == part;
    PieceOfTail(s, sep, n + 1, i, j);
  }

  lemma PieceOfTail(s: string, sep: char, n: nat, i: nat, j: nat)
    requires 0 < n <= |s| && s[n - 1] == sep && i <= j <= |s| - n
    ensures s[n..][i..j] == s[n + i..n + j]
    ensures Piece(s[n..], sep, i, j) <==> Piece(s, sep, n + i, n + j)
  {
    var t := s[n..];
    assert t[i..j] == s[n + i..n + j];
    assert i > 0 ==> t[i - 1] == s[n + i - 1];
    assert j < |t| ==> t[j] == s[n + j];
  }

  /** A piece other than the first one lies behind the first separator. */
  lemma FirstOrLater(s: string, sep: char, n: nat, i: nat, j: nat)
    requires n <= |s| && sep !in s[..n] && (n == |s| || s[n] == sep) && Piece(s, sep, i, j)
    ensures (i == 0 && j == n) || (n < i && n < |s|)
  {
    NotInside(s, sep, 0, n);
    NotInside(s, sep, i, j);
  }

  lemma NotInside(s: string, sep: char, i: nat, j: nat)
    requires i <= j <= |s| && sep !in s[i..j]
    ensures forall k | i <= k < j :: s[k] != sep
  {
    forall k | i <= k < j ensures s[k] != sep {
      assert s[i..j][k - i] == s[k];
    }
  }

  /** There is one piece more than separators. */
  lemma {:induction false} SplitCount(s: string, sep: char)
    ensures |SplitOn(s, sep)| == multiset(s)[sep] + 1
  {
    if s != "" {
      SplitCount(s[1..], sep);
      assert s == [s[0]] + s[1..];
    }
  }

  // ----- parts of a text -----

  lemma ContainsIff(s: string, part: string)
    ensures Contains(s, part) <==> exists before: string, after: string :: s == before + part + after
  {
    if Contains(s, part) {
      var i :| 0 <= i <= |s| && OccursAt(s, part, i);
      assert s == s[..i] + part + s[i + |part|..];
    }
    if before: string, after: string :| s == before + part + after {
      assert OccursAt(s, part, |before|);
    }
  }

  lemma EndsWithIff(s: string, tail: string)
    ensures EndsWith(s, tail) <==> exists before: string :: s == before + tail
  {
    if EndsWith(s, tail) {
      assert s == s[..|s| - |tail|] + tail;
    }
  }
}
