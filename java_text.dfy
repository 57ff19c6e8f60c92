/**
  The few java.lang.String operations the query-string parsers rely on:
  `split` with a one-character separator, `toUpperCase` and substring search.
  Only ASCII letters change case here; locale rules are not modelled.
*/
module JavaText {

  /** The pieces of `s` between occurrences of `sep`, empty pieces included. */
  function Pieces(s: string, sep: char): (r: seq<string>)
    ensures |r| >= 1
    decreases |s|
  {
    if s == [] then [[]]
    else
      var rest := Pieces(s[1..], sep);
      if s[0] == sep then [[]] + rest
      else [[s[0]] + rest[0]] + rest[1..]
  }

  /** No piece holds the separator. */
  lemma {:induction false} PiecesFreeOfSeparator(s: string, sep: char)
    ensures forall i :: 0 <= i < |Pieces(s, sep)| ==> sep !in Pieces(s, sep)[i]
    decreases |s|
  {
    if s != [] {
      PiecesFreeOfSeparator(s[1..], sep);
    }
  }

  /** The pieces put back together with `sep` between them. */
  function Join(ps: seq<string>, sep: char): string
    requires |ps| >= 1
    decreases |ps|
  {
    if |ps| == 1 then ps[0] else ps[0] + [sep] + Join(ps[1..], sep)
  }

  /** Cutting at every separator loses nothing: joining the pieces gives the string back. */
  lemma {:induction false} JoinPieces(s: string, sep: char)
    ensures Join(Pieces(s, sep), sep) == s
    decreases |s|
  {
    if s != [] {
      var rest := Pieces(s[1..], sep);
      JoinPieces(s[1..], sep);
      if s[0] == sep {
        assert Pieces(s, sep)[1..] == rest;
        assert s == [sep] + s[1..];
      } else if |rest| == 1 {
        assert s == [s[0]] + s[1..];
      } else {
        var ps := Pieces(s, sep);
        assert ps[1..] == rest[1..];
        assert Join(rest, sep) == rest[0] + [sep] + Join(rest[1..], sep);
        assert s == [s[0]] + s[1..];
      }
    }
  }

  /** A string without the separator is a single piece. */
  lemma {:induction false} PiecesWithoutSeparator(s: string, sep: char)
    requires sep !in s
    ensures Pieces(s, sep) == [s]
    decreases |s|
  {
    if s != [] {
      PiecesWithoutSeparator(s[1..], sep);
      assert s == [s[0]] + s[1..];
    }
  }

  /** A leading piece without the separator is cut off whole at the first separator. */
  lemma {:induction false} PiecesAfterFirst(a: string, sep: char, b: string)
    requires sep !in a
    ensures Pieces(a + [sep] + b, sep) == [a] + Pieces(b, sep)
    decreases |a|
  {
    if a == [] {
      assert a + [sep] + b == [sep] + b;
      assert ([sep] + b)[1..] == b;
    } else {
      PiecesAfterFirst(a[1..], sep, b);
      assert (a + [sep] + b)[1..] == a[1..] + [sep] + b;
      assert [a[0]] + a[1..] == a;
    }
  }

  /** The pieces with the empty ones at the end removed, as `split` with limit 0 does. */
  function DropTrailingEmpty(ps: seq<string>): (r: seq<string>)
    ensures |r| <= |ps| && r == ps[..|r|]
    ensures r == [] || r[|r| - 1] != []
    ensures forall i :: |r| <= i < |ps| ==> ps[i] == []
    decreases |ps|
  {
    if ps == [] then []
    else if ps[|ps| - 1] == [] then DropTrailingEmpty(ps[..|ps| - 1])
    else ps
  }

  /**
    Java's `s.split(String.valueOf(sep))`: "" gives [""]; otherwise the pieces
    between separators, a leading empty piece kept and trailing empty pieces dropped.
  */
  function Split(s: string, sep: char): seq<string>
  {
    if s == [] then [[]] else DropTrailingEmpty(Pieces(s, sep))
  }

  /**
    What `split` keeps: [""] for the empty string; otherwise the pieces up to the last non-empty one,
    the dropped tail being empty pieces only, and no kept piece holding the separator.
  */
  lemma SplitTrims(s: string, sep: char)
    ensures s == [] ==> Split(s, sep) == [[]]
    ensures s != [] ==>
      var ps := Pieces(s, sep);
      var r := Split(s, sep);
      && |r| <= |ps| && r == ps[..|r|]
      && (r == [] || r[|r| - 1] != [])
      && (forall i :: |r| <= i < |ps| ==> ps[i] == [])
    ensures forall i :: 0 <= i < |Split(s, sep)| ==> sep !in Split(s, sep)[i]
  {
    if s != [] {
      PiecesFreeOfSeparator(s, sep);
      var ps := Pieces(s, sep);
      var r := Split(s, sep);
      forall i | 0 <= i < |r| ensures sep !in r[i] {
        assert r[i] == ps[i];
      }
    }
  }

  /** `split(...)[1]` exists exactly when some piece after the first is non-empty. */
  lemma SplitHasSecond(s: string, sep: char)
    ensures |Split(s, sep)| >= 2 <==>
      exists k :: 1 <= k < |Pieces(s, sep)| && Pieces(s, sep)[k] != []
  {
    var ps := Pieces(s, sep);
    if s != [] {
      var r := DropTrailingEmpty(ps);
      if |r| >= 2 {
        assert ps[|r| - 1] == r[|r| - 1];
      }
    }
  }

  /** Splitting a string without the separator gives it back alone. */
  lemma SplitWithoutSeparator(s: string, sep: char)
    requires sep !in s
    ensures Split(s, sep) == [s]
  {
    PiecesWithoutSeparator(s, sep);
  }

  /** Splitting "key=value" with a separator-free key and value gives exactly the two parts. */
  lemma SplitPair(key: string, sep: char, value: string)
    requires sep !in key && sep !in value && value != []
    ensures Split(key + [sep] + value, sep) == [key, value]
  {
    PiecesAfterFirst(key, sep, value);
    PiecesWithoutSeparator(value, sep);
    assert Pieces(key + [sep] + value, sep) == [key, value];
  }

  /** `Character.isWhitespace` on the ASCII range: tab to carriage return, the four separators 0x1C-0x1F, and space. */
  predicate IsWhitespace(c: char)
  {
    ('\t' <= c <= '\r') || ('\U{1C}' <= c <= '\U{1F}') || c == ' '
  }

  /** Spring's `StringUtils.hasText`: some character is not whitespace. */
  predicate HasText(s: string)
  {
    exists i :: 0 <= i < |s| && !IsWhitespace(s[i])
  }

  function UpperChar(c: char): char
  {
    if 'a' <= c <= 'z' then (c as int - 32) as char else c
  }

  /** `toUpperCase` on ASCII letters. */
  function Upper(s: string): (r: string)
    ensures |r| == |s|
    decreases |s|
  {
    if s == [] then [] else [UpperChar(s[0])] + Upper(s[1..])
  }

  /** Upper-casing twice is upper-casing once. */
  lemma {:induction false} UpperIdempotent(s: string)
    ensures Upper(Upper(s)) == Upper(s)
    decreases |s|
  {
    if s != [] {
      UpperIdempotent(s[1..]);
      assert Upper(s)[1..] == Upper(s[1..]);
    }
  }

  /** Substring search, as SQL `LIKE '%needle%'` without wildcards inside the needle. */
  function Contains(hay: string, needle: string): (r: bool)
    ensures r <==> exists i :: 0 <= i <= |hay| && needle <= hay[i..]
    decreases |hay|
  {
    if needle <= hay then assert hay[0..] == hay; true
    else if hay == [] then false
    else
      var r := Contains(hay[1..], needle);
      assert forall i :: 1 <= i <= |hay| ==> hay[i..] == hay[1..][i - 1..];
      assert r ==> exists i :: 1 <= i <= |hay| && needle <= hay[i..];
      r
  }
}
