/** String helpers with the meaning they have in Go's strings package. */
module Text {

  predicate HasPrefix(s: string, prefix: string) {
    prefix <= s
  }

  predicate HasSuffix(s: string, suffix: string) {
    |suffix| <= |s| && s[|s| - |suffix|..] == suffix
  }

  /** The pieces between occurrences of sep; there is always at least one. */
  function Split(s: string, sep: char): (r: seq<string>)
    ensures |r| >= 1
    ensures forall i :: 0 <= i < |r| ==> sep !in r[i]
  {
    if s == "" then [""]
    else
      var rest := Split(s[1..], sep);
      if s[0] == sep then [""] + rest else [[s[0]] + rest[0]] + rest[1..]
  }

  /** The pieces with sep between them. */
  function Join(pieces: seq<string>, sep: char): string {
    if pieces == [] then ""
    else if |pieces| == 1 then pieces[0]
    else pieces[0] + [sep] + Join(pieces[1..], sep)
  }

  lemma {:induction false} SplitPiece(piece: string, sep: char)
    requires sep !in piece
    ensures Split(piece, sep) == [piece]
  {
    if piece != "" {
      SplitPiece(piece[1..], sep);
      assert piece == [piece[0]] + piece[1..];
    }
  }

  lemma {:induction false} SplitFirst(piece: string, rest: string, sep: char)
    requires sep !in piece
    ensures Split(piece + [sep] + rest, sep) == [piece] + Split(rest, sep)
  {
    var s := piece + [sep] + rest;
    if piece == "" {
      assert s[1..] == rest;
    } else {
      assert s[1..] == piece[1..] + [sep] + rest;
      SplitFirst(piece[1..], rest, sep);
      assert piece == [piece[0]] + piece[1..];
    }
  }

  /** Splitting undoes joining. */
  lemma {:induction false} SplitJoin(pieces: seq<string>, sep: char)
    requires pieces != [] && forall i :: 0 <= i < |pieces| ==> sep !in pieces[i]
    ensures Split(Join(pieces, sep), sep) == pieces
  {
    if |pieces| == 1 {
      SplitPiece(pieces[0], sep);
    } else {
      SplitJoin(pieces[1..], sep);
      SplitFirst(pieces[0], Join(pieces[1..], sep), sep);
    }
  }

  /** Joining undoes splitting. */
  lemma {:induction false} JoinSplit(s: string, sep: char)
    ensures Join(Split(s, sep), sep) == s
  {
    if s != "" {
      var rest := Split(s[1..], sep);
      JoinSplit(s[1..], sep);
      if s[0] == sep {
        assert ([""] + rest)[1..] == rest;
        assert s == "" + [sep] + s[1..];
      } else {
        var pieces := [[s[0]] + rest[0]] + rest[1..];
        assert pieces[1..] == rest[1..];
        JoinLonger(s[0], rest, sep);
        assert s == [s[0]] + s[1..];
      }
    }
  }

  lemma JoinLonger(c: char, pieces: seq<string>, sep: char)
    requires pieces != []
    ensures Join([[c] + pieces[0]] + pieces[1..], sep) == [c] + Join(pieces, sep)
  {
    var longer := [[c] + pieces[0]] + pieces[1..];
    assert longer[1..] == pieces[1..];
    if |pieces| > 1 {
      var tail := [sep] + Join(pieces[1..], sep);
      assert [c] + pieces[0] + tail == [c] + (pieces[0] + tail);
      assert pieces[0] + tail == pieces[0] + [sep] + Join(pieces[1..], sep);
      assert [c] + pieces[0] + tail == [c] + pieces[0] + [sep] + Join(pieces[1..], sep);
    }
  }

  lemma Regroup(a: string, b: string, c: string, d: string)
    ensures a + b + c + d == a + (b + c + d)
  {
  }

  lemma {:induction false} JoinAppend(a: seq<string>, b: seq<string>, sep: char)
    requires a != [] && b != []
    ensures Join(a + b, sep) == Join(a, sep) + [sep] + Join(b, sep)
  {
    assert (a + b)[1..] == a[1..] + b;
    if |a| > 1 {
      JoinAppend(a[1..], b, sep);
      Regroup(a[0] + [sep], Join(a[1..], sep), [sep], Join(b, sep));
    } else {
      assert a[1..] + b == b;
    }
  }

  lemma JoinFirst(pieces: seq<string>, sep: char)
    requires |pieces| > 1
    ensures Join(pieces, sep) == pieces[0] + [sep] + Join(pieces[1..], sep)
  {
  }

  lemma SplitOneMore(first: string, joined: string, rest: string, sep: char)
    requires sep !in first
    ensures Split(first + [sep] + joined + [sep] + rest, sep) == [first] + Split(joined + [sep] + rest, sep)
  {
    SplitFirst(first, joined + [sep] + rest, sep);
    Regroup(first + [sep], joined, [sep], rest);
  }

  /** Splitting after joined pieces. */
  lemma {:induction false} SplitAppend(pieces: seq<string>, rest: string, sep: char)
    requires pieces != [] && forall i :: 0 <= i < |pieces| ==> sep !in pieces[i]
    ensures Split(Join(pieces, sep) + [sep] + rest, sep) == pieces + Split(rest, sep)
  {
    if |pieces| == 1 {
      SplitFirst(pieces[0], rest, sep);
    } else {
      SplitAppend(pieces[1..], rest, sep);
      SplitOneMore(pieces[0], Join(pieces[1..], sep), rest, sep);
      JoinFirst(pieces, sep);
      Cons(pieces, Split(rest, sep));
    }
  }

  lemma Cons(pieces: seq<string>, rest: seq<string>)
    requires pieces != []
    ensures [pieces[0]] + (pieces[1..] + rest) == pieces + rest
  {
  }
}
