/** The string operations the pages rely on: `String.prototype.indexOf`,
    `String.prototype.split` with a non-empty string separator,
    `Array.prototype.join` with any string separator, and the decimal text of an
    integer (`${n}` for an integral number). */
module Strings {
  import opened Wrappers

  /** `sep` occurs in `s` starting at index `i`. */
  predicate OccursAt(s: string, sep: string, i: int)
  {
    0 <= i && i + |sep| <= |s| && s[i..i + |sep|] == sep
  }

  /** `sep` does not occur anywhere in `s`. */
  ghost predicate Free(s: string, sep: string)
  {
    forall j :: !OccursAt(s, sep, j)
  }

  lemma OccursShift(s: string, sep: string)
    requires s != []
    ensures forall j :: 1 <= j ==> (OccursAt(s, sep, j) <==> OccursAt(s[1..], sep, j - 1))
  {
    forall j | 1 <= j ensures OccursAt(s, sep, j) <==> OccursAt(s[1..], sep, j - 1) {
      if j + |sep| <= |s| {
        assert s[1..][j - 1..j - 1 + |sep|] == s[j..j + |sep|];
      }
    }
  }

  /** The first index at which `sep` occurs in `s`, as `s.indexOf(sep)` finds it. */
  function IndexOf(s: string, sep: string): (r: Option<nat>)
    ensures r.Some? ==> OccursAt(s, sep, r.value)
    ensures r.Some? ==> forall j :: 0 <= j < r.value ==> !OccursAt(s, sep, j)
    ensures r.None? ==> Free(s, sep)
    decreases |s|
  {
    if |s| < |sep| then None
    else if s[..|sep|] == sep then Some(0)
    else
      assert !OccursAt(s, sep, 0);
      OccursShift(s, sep);
      match IndexOf(s[1..], sep)
      case None => None
      case Some(i) => Some(i + 1)
  }

  /** `s.split(sep)` for a non-empty string separator: the pieces between the
      successive non-overlapping occurrences of `sep`, searched left to right. */
  function Split(s: string, sep: string): (r: seq<string>)
    requires sep != []
    ensures |r| >= 1
    decreases |s|
  {
    match IndexOf(s, sep)
    case None => [s]
    case Some(i) => [s[..i]] + Split(s[i + |sep|..], sep)
  }

  /** `pieces.join(sep)`. */
  function Join(pieces: seq<string>, sep: string): (r: string)
    ensures pieces == [] ==> r == ""
    ensures pieces != [] ==> |pieces[0]| <= |r| && r[..|pieces[0]|] == pieces[0]
  {
    if pieces == [] then ""
    else if |pieces| == 1 then pieces[0]
    else pieces[0] + sep + Join(pieces[1..], sep)
  }

  lemma JoinCons(p: string, r: seq<string>, sep: string)
    requires r != []
    ensures Join([p] + r, sep) == p + sep + Join(r, sep)
  {
    assert ([p] + r)[1..] == r;
  }

  /** `p` sits in `r` at index `o`. */
  predicate PieceAt(r: string, p: string, o: int)
  {
    0 <= o && o + |p| <= |r| && r[o..o + |p|] == p
  }

  /** Where piece `i` starts in `Join(pieces, sep)`: the lengths of the pieces before
      it, each followed by one separator. */
  function Offset(pieces: seq<string>, sep: string, i: nat): nat
    requires i <= |pieces|
  {
    if i == 0 then 0 else |pieces[0]| + |sep| + Offset(pieces[1..], sep, i - 1)
  }

  /** A piece found in `j` is found in `a + j`, shifted by `|a|`. */
  lemma PieceShift(a: string, j: string, p: string, o: int)
    requires PieceAt(j, p, o)
    ensures PieceAt(a + j, p, |a| + o)
  {
    assert (a + j)[|a| + o..|a| + o + |p|] == j[o..o + |p|];
  }

  lemma JoinUnfold(pieces: seq<string>, sep: string)
    requires |pieces| >= 2
    ensures Join(pieces, sep) == (pieces[0] + sep) + Join(pieces[1..], sep)
  {
  }

  /** The separator right after the head of `a + sep + j`. */
  lemma SeparatorAfter(a: string, sep: string, j: string)
    ensures PieceAt((a + sep) + j, sep, |a|)
  {
    assert ((a + sep) + j)[|a|..|a| + |sep|] == sep;
  }

  /** Every piece of a join sits at its offset. */
  lemma {:induction false} JoinPieces(pieces: seq<string>, sep: string)
    ensures forall i | 0 <= i < |pieces| :: PieceAt(Join(pieces, sep), pieces[i], Offset(pieces, sep, i))
  {
    if |pieces| >= 2 {
      var rest := pieces[1..];
      JoinPieces(rest, sep);
      JoinUnfold(pieces, sep);
      forall i | 1 <= i < |pieces| ensures PieceAt(Join(pieces, sep), pieces[i], Offset(pieces, sep, i)) {
        assert pieces[i] == rest[i - 1];
        PieceShift(pieces[0] + sep, Join(rest, sep), rest[i - 1], Offset(rest, sep, i - 1));
      }
    }
  }

  lemma JoinSeparatorStep(pieces: seq<string>, sep: string, i: nat)
    requires |pieces| >= 2 && i < |pieces| - 1
    requires i > 0 ==> PieceAt(Join(pieces[1..], sep), sep, Offset(pieces[1..], sep, i - 1) + |pieces[i]|)
    ensures PieceAt(Join(pieces, sep), sep, Offset(pieces, sep, i) + |pieces[i]|)
  {
    var head, j := pieces[0] + sep, Join(pieces[1..], sep);
    JoinUnfold(pieces, sep);
    if i == 0 {
      SeparatorAfter(pieces[0], sep, j);
    } else {
      var o := Offset(pieces[1..], sep, i - 1) + |pieces[i]|;
      assert Offset(pieces, sep, i) + |pieces[i]| == |head| + o;
      PieceShift(head, j, sep, o);
    }
  }

  /** The separator follows every piece of a join but the last. */
  lemma {:induction false} JoinSeparators(pieces: seq<string>, sep: string)
    ensures forall i | 0 <= i < |pieces| - 1 ::
              PieceAt(Join(pieces, sep), sep, Offset(pieces, sep, i) + |pieces[i]|)
  {
    if |pieces| >= 2 {
      var rest := pieces[1..];
      JoinSeparators(rest, sep);
      forall i | 0 <= i < |pieces| - 1 ensures PieceAt(Join(pieces, sep), sep, Offset(pieces, sep, i) + |pieces[i]|) {
        if i > 0 {
          assert pieces[i] == rest[i - 1];
        }
        JoinSeparatorStep(pieces, sep, i);
      }
    }
  }

  /** A join ends with its last piece: its length and one separator reach the last offset. */
  lemma {:induction false} JoinLength(pieces: seq<string>, sep: string)
    requires pieces != []
    ensures |Join(pieces, sep)| + |sep| == Offset(pieces, sep, |pieces|)
  {
    if |pieces| == 1 {
      assert Offset(pieces, sep, 1) == |pieces[0]| + |sep| + Offset(pieces[1..], sep, 0);
    } else {
      JoinLength(pieces[1..], sep);
      JoinUnfold(pieces, sep);
    }
  }

  /** The layout of a join: every piece at its offset, the separator after every
      piece but the last, and nothing after the last piece. */
  lemma {:induction false} JoinLayout(pieces: seq<string>, sep: string)
    ensures forall i | 0 <= i < |pieces| :: PieceAt(Join(pieces, sep), pieces[i], Offset(pieces, sep, i))
    ensures forall i | 0 <= i < |pieces| - 1 ::
              PieceAt(Join(pieces, sep), sep, Offset(pieces, sep, i) + |pieces[i]|)
    ensures pieces != [] ==> |Join(pieces, sep)| + |sep| == Offset(pieces, sep, |pieces|)
  {
    JoinPieces(pieces, sep);
    JoinSeparators(pieces, sep);
    if pieces != [] {
      JoinLength(pieces, sep);
    }
  }

  /** Joining the pieces of a split with the same separator gives back the string. */
  lemma {:induction false} JoinSplit(s: string, sep: string)
    requires sep != []
    ensures Join(Split(s, sep), sep) == s
    decreases |s|
  {
    var idx := IndexOf(s, sep);
    if idx.Some? {
      var i := idx.value;
      var head, rest := s[..i], s[i + |sep|..];
      JoinSplit(rest, sep);
      SplitUnfold(s, sep, i);
      JoinCons(head, Split(rest, sep), sep);
      SplitAround(s, i, sep);
    }
  }

  lemma SplitUnfold(s: string, sep: string, i: nat)
    requires sep != [] && IndexOf(s, sep) == Some(i)
    ensures Split(s, sep) == [s[..i]] + Split(s[i + |sep|..], sep)
  {
  }

  lemma SplitAround(s: string, i: nat, sep: string)
    requires OccursAt(s, sep, i)
    ensures s == s[..i] + sep + s[i + |sep|..]
  {
    assert s == s[..i] + s[i..i + |sep|] + s[i + |sep|..];
  }

  /** No piece of a split contains the separator. */
  lemma {:induction false} SplitPiecesFree(s: string, sep: string)
    requires sep != []
    ensures forall k :: 0 <= k < |Split(s, sep)| ==> Free(Split(s, sep)[k], sep)
    decreases |s|
  {
    match IndexOf(s, sep)
    case None =>
    case Some(i) =>
      var rest := s[i + |sep|..];
      SplitPiecesFree(rest, sep);
      forall j | OccursAt(s[..i], sep, j) ensures false {
        assert s[..i][j..j + |sep|] == s[j..j + |sep|];
        assert OccursAt(s, sep, j);
      }
      assert Split(s, sep) == [s[..i]] + Split(rest, sep);
  }

  /** A string splits into exactly one piece, itself, iff the separator does not occur in it. */
  lemma SplitSingle(s: string, sep: string)
    requires sep != []
    ensures Split(s, sep) == [s] <==> Free(s, sep)
  {
    match IndexOf(s, sep)
    case None =>
    case Some(i) =>
      assert |Split(s, sep)| >= 2;
  }

  /** The decimal digit character for `d`. */
  function DigitChar(d: nat): (c: char)
    requires d < 10
    ensures '0' <= c <= '9' && c as int - '0' as int == d
  {
    ['0', '1', '2', '3', '4', '5', '6', '7', '8', '9'][d]
  }

  /** The decimal digits of `n`, without leading zeros. */
  function NatText(n: nat): (r: string)
    ensures r != [] && '0' <= r[0] <= '9'
    decreases n
  {
    if n < 10 then [DigitChar(n)] else NatText(n / 10) + [DigitChar(n % 10)]
  }

  /** The text JavaScript gives an integral number: optional `-`, then the digits. */
  function NumberText(n: int): (r: string)
    ensures r != []
    ensures r[0] == '-' <==> n < 0
    ensures '0' <= r[0] <= '9' <==> n >= 0
  {
    if n < 0 then "-" + NatText(-n) else NatText(n)
  }

  /** The value of a string of decimal digits. */
  function ParseNat(s: string): int
  {
    if s == [] then 0 else ParseNat(s[..|s| - 1]) * 10 + (s[|s| - 1] as int - '0' as int)
  }

  /** The value of a decimal numeral with an optional `+` or `-` sign. */
  function ParseNumber(s: string): int
  {
    if s != [] && s[0] == '-' then -ParseNat(s[1..])
    else if s != [] && s[0] == '+' then ParseNat(s[1..])
    else ParseNat(s)
  }

  lemma {:induction false} ParseNatText(n: nat)
    ensures ParseNat(NatText(n)) == n
    ensures '0' <= NatText(n)[0] <= '9'
    decreases n
  {
    if n >= 10 {
      ParseNatText(n / 10);
      var t := NatText(n / 10) + [DigitChar(n % 10)];
      assert t[..|t| - 1] == NatText(n / 10);
    }
  }

  /** The decimal text of an integer reads back as that integer. */
  lemma ParseNumberText(n: int)
    ensures ParseNumber(NumberText(n)) == n
  {
    if n < 0 {
      ParseNatText(-n);
      assert ("-" + NatText(-n))[1..] == NatText(-n);
    } else {
      ParseNatText(n);
    }
  }
}
