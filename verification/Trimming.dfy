/** Facts about trimming white space. */
module Trimming {
  import opened Bytes

  lemma {:induction false} TrimRightCons(c: char, t: string)
    ensures TrimRightSpace([c] + t) == if TrimRightSpace(t) == "" then (if IsSpace(c) then "" else [c])
      else [c] + TrimRightSpace(t)
    decreases |t|
  {
    var s := [c] + t;
    if t == "" {
      assert s == [c] && [c][..0] == "";
    } else {
      var f := t[..|t| - 1];
      assert s[|s| - 1] == t[|t| - 1] && s[..|s| - 1] == [c] + f;
      TrimRightCons(c, f);
    }
  }

  lemma {:induction false} TrimsCommute(s: string)
    ensures TrimLeftSpace(TrimRightSpace(s)) == TrimRightSpace(TrimLeftSpace(s))
  {
    if s != "" {
      assert s == [s[0]] + s[1..];
      TrimRightCons(s[0], s[1..]);
      TrimsCommute(s[1..]);
      assert ([s[0]] + TrimRightSpace(s[1..]))[1..] == TrimRightSpace(s[1..]);
    }
  }

  lemma {:induction false} TrimRightTwice(s: string)
    ensures TrimRightSpace(TrimRightSpace(s)) == TrimRightSpace(s)
  {
    if s != "" {
      TrimRightTwice(s[..|s| - 1]);
    }
  }

  lemma {:induction false} TrimLeftTwice(s: string)
    ensures TrimLeftSpace(TrimLeftSpace(s)) == TrimLeftSpace(s)
  {
    if s != "" {
      TrimLeftTwice(s[1..]);
    }
  }

  lemma {:induction false} TrimAfterRight(s: string)
    ensures TrimSpace(TrimRightSpace(s)) == TrimSpace(s)
  {
    TrimsCommute(s);
    TrimRightTwice(TrimLeftSpace(s));
  }

  lemma {:induction false} TrimSpaceTwice(s: string)
    ensures TrimSpace(TrimSpace(s)) == TrimSpace(s)
  {
    var t := TrimLeftSpace(s);
    TrimsCommute(t);
    TrimLeftTwice(s);
    TrimRightTwice(t);
  }

  lemma {:induction false} TrimRightBehind(a: string, c: char, b: string)
    requires !IsSpace(c)
    ensures TrimRightSpace(a + [c] + b) == a + [c] + TrimRightSpace(b)
    decreases |b|
  {
    var s := a + [c] + b;
    if b == "" {
      assert s == a + [c] && s[|s| - 1] == c;
    } else {
      var f := b[..|b| - 1];
      assert s[|s| - 1] == b[|b| - 1] && s[..|s| - 1] == a + [c] + f;
      TrimRightBehind(a, c, f);
    }
  }

  /** `r` is a piece of `s`. */
  ghost predicate PieceOf(r: string, s: string) {
    exists i, j :: 0 <= i <= j <= |s| && r == s[i..j]
  }

  lemma {:induction false} SliceOfSlice(c: string, k: nat, l: nat, i: nat, j: nat)
    requires k <= l <= |c| && i <= j <= l - k
    ensures c[k..l][i..j] == c[k + i..k + j]
  {
    var b := c[k..l];
    var x, y := b[i..j], c[k + i..k + j];
    forall z | 0 <= z < j - i
      ensures x[z] == y[z]
    {
      assert x[z] == b[i + z] == c[k + i + z];
    }
  }

  lemma {:induction false} PieceOfPiece(a: string, b: string, c: string)
    requires PieceOf(a, b) && PieceOf(b, c)
    ensures PieceOf(a, c)
  {
    var i, j :| 0 <= i <= j <= |b| && a == b[i..j];
    var k, l :| 0 <= k <= l <= |c| && b == c[k..l];
    SliceOfSlice(c, k, l, i, j);
  }

  lemma {:induction false} PieceFacts(r: string, s: string)
    requires PieceOf(r, s)
    ensures |r| <= |s| && (|r| == |s| ==> r == s)
    ensures forall c :: c in r ==> c in s
  {
  }

  lemma {:induction false} TrimLeftSpacePiece(s: string)
    ensures PieceOf(TrimLeftSpace(s), s)
  {
    if s != "" && IsSpace(s[0]) {
      TrimLeftSpacePiece(s[1..]);
      assert s[1..] == s[1..|s|];
      PieceOfPiece(TrimLeftSpace(s), s[1..], s);
    } else {
      assert s == s[0..|s|];
    }
  }

  lemma {:induction false} TrimRightSpacePiece(s: string)
    ensures PieceOf(TrimRightSpace(s), s)
  {
    if s != "" && IsSpace(s[|s| - 1]) {
      var f := s[..|s| - 1];
      TrimRightSpacePiece(f);
      assert f == s[0..|s| - 1];
      PieceOfPiece(TrimRightSpace(s), f, s);
    } else {
      assert s == s[0..|s|];
    }
  }

  lemma {:induction false} TrimSpacePiece(s: string)
    ensures PieceOf(TrimSpace(s), s)
  {
    TrimLeftSpacePiece(s);
    TrimRightSpacePiece(TrimLeftSpace(s));
    PieceOfPiece(TrimSpace(s), TrimLeftSpace(s), s);
  }

  /** Trimming leaves a text alone exactly when no white space surrounds it. */
  lemma {:induction false} TrimmedIff(s: string)
    ensures TrimSpace(s) == s <==> s == "" || (!IsSpace(s[0]) && !IsSpace(s[|s| - 1]))
  {
    if s != "" {
      if IsSpace(s[0]) {
        TrimLeftSpacePiece(s[1..]);
        PieceFacts(TrimLeftSpace(s), s[1..]);
        TrimRightSpacePiece(TrimLeftSpace(s));
        PieceFacts(TrimSpace(s), TrimLeftSpace(s));
      } else if IsSpace(s[|s| - 1]) {
        TrimRightSpacePiece(s[..|s| - 1]);
        PieceFacts(TrimRightSpace(s), s[..|s| - 1]);
      }
    }
  }
}
