/** Splitting a movie's `genres` field into genre names: Python's
    `str.split` on a one-character separator, and the `if g` filter that drops
    empty pieces. */
module Pieces {

  /** The separator between genre names in movies.csv. */
  const Bar: char := '|'

  /** `s.split(sep)` as Python computes it for a one-character separator:
      every occurrence of `sep` ends a piece, so there is always one piece
      more than there are separators, and pieces may be empty
      (`"".split("|") == [""]`, `"a||b".split("|") == ["a", "", "b"]`). */
  function Split(s: string, sep: char): (r: seq<string>)
    ensures |r| == Occurrences(s, sep) + 1
    ensures forall i :: 0 <= i < |r| ==> sep !in r[i]
    decreases |s|
  {
    if s == [] then [[]]
    else
      var rest := Split(s[1..], sep);
      if s[0] == sep then [[]] + rest
      else [[s[0]] + rest[0]] + rest[1..]
  }

  /** How many times `c` occurs in `s`. */
  function Occurrences(s: string, c: char): nat
  {
    if s == [] then 0 else (if s[0] == c then 1 else 0) + Occurrences(s[1..], c)
  }

  /** `sep.join(ps)`, the inverse of `Split`. */
  function Join(ps: seq<string>, sep: char): string
    requires |ps| >= 1
  {
    if |ps| == 1 then ps[0] else ps[0] + [sep] + Join(ps[1..], sep)
  }

  /** Joining the pieces of a split gives back the string. */
  lemma {:induction false} JoinSplit(s: string, sep: char)
    ensures Join(Split(s, sep), sep) == s
    decreases |s|
  {
    if s != [] {
      var rest := Split(s[1..], sep);
      JoinSplit(s[1..], sep);
      if s[0] == sep {
        assert Split(s, sep) == [[]] + rest;
        assert ([[]] + rest)[1..] == rest;
      } else if |rest| == 1 {
        assert Split(s, sep) == [[s[0]] + rest[0]];
      } else {
        var r := Split(s, sep);
        assert r == [[s[0]] + rest[0]] + rest[1..];
        assert r[1..] == rest[1..];
        assert Join(rest, sep) == rest[0] + [sep] + Join(rest[1..], sep);
        assert s == [s[0]] + s[1..];
      }
    }
  }

  /** A prefix free of the separator glues onto the first piece. */
  lemma {:induction false} SplitPrefix(a: string, t: string, sep: char)
    requires sep !in a
    ensures Split(a + t, sep) == [a + Split(t, sep)[0]] + Split(t, sep)[1..]
    decreases |a|
  {
    if a != [] {
      assert (a + t)[1..] == a[1..] + t;
      assert (a + t)[0] == a[0];
      SplitPrefix(a[1..], t, sep);
      assert [a[0]] + (a[1..] + Split(t, sep)[0]) == a + Split(t, sep)[0];
    } else {
      var r := Split(t, sep);
      assert a + t == t;
      assert a + r[0] == r[0];
      assert r == [r[0]] + r[1..];
    }
  }

  /** Splitting a join of separator-free pieces gives back the pieces. */
  lemma {:induction false} SplitJoin(ps: seq<string>, sep: char)
    requires |ps| >= 1
    requires forall i :: 0 <= i < |ps| ==> sep !in ps[i]
    ensures Split(Join(ps, sep), sep) == ps
  {
    if |ps| == 1 {
      SplitPrefix(ps[0], [], sep);
      assert ps[0] + [] == ps[0];
    } else {
      var tail := Join(ps[1..], sep);
      SplitJoin(ps[1..], sep);
      assert Join(ps, sep) == ps[0] + ([sep] + tail);
      SplitPrefix(ps[0], [sep] + tail, sep);
      assert ([sep] + tail)[1..] == tail;
      assert Split([sep] + tail, sep) == [[]] + ps[1..];
      assert ps[0] + [] == ps[0];
    }
  }

  /** The pieces that are not empty, in their original order (`if g`). */
  function NonEmpty(ps: seq<string>): (r: seq<string>)
    ensures |r| <= |ps|
    ensures forall p :: p in r <==> p in ps && p != []
    ensures forall p :: multiset(r)[p] == if p != [] then multiset(ps)[p] else 0
  {
    if ps == [] then []
    else
      assert ps == [ps[0]] + ps[1..];
      (if ps[0] == [] then [] else [ps[0]]) + NonEmpty(ps[1..])
  }

  /** The filter works piece by piece: filtering a concatenation
      concatenates the filtered parts, so the kept pieces stay in order. */
  lemma {:induction false} NonEmptyAppend(a: seq<string>, b: seq<string>)
    ensures NonEmpty(a + b) == NonEmpty(a) + NonEmpty(b)
  {
    if a == [] {
      assert a + b == b;
    } else {
      assert (a + b)[0] == a[0];
      assert (a + b)[1..] == a[1..] + b;
      NonEmptyAppend(a[1..], b);
    }
  }

  /** Dropping empty pieces changes nothing when there are none. */
  lemma {:induction false} NonEmptyOfNonEmpty(ps: seq<string>)
    requires forall i :: 0 <= i < |ps| ==> ps[i] != []
    ensures NonEmpty(ps) == ps
  {
    if ps != [] {
      NonEmptyOfNonEmpty(ps[1..]);
    }
  }

  /** A movie's genre names: `[g for g in genres.split('|') if g]`. */
  function GenreNames(genres: string): (r: seq<string>)
    ensures forall i :: 0 <= i < |r| ==> r[i] != [] && Bar !in r[i]
    ensures forall g :: g in r <==> g in Split(genres, Bar) && g != []
    ensures forall g :: multiset(r)[g] == if g != [] then multiset(Split(genres, Bar))[g] else 0
  {
    var r := NonEmpty(Split(genres, Bar));
    assert forall i :: 0 <= i < |r| ==> r[i] in Split(genres, Bar);
    r
  }

  /** A genres field written as `|`-free pieces joined by `|` yields the
      non-empty pieces, in their order. Every field is such a join of its own
      pieces (`JoinSplit`). */
  lemma GenreNamesOfPieces(ps: seq<string>)
    requires |ps| >= 1
    requires forall i :: 0 <= i < |ps| ==> Bar !in ps[i]
    ensures GenreNames(Join(ps, Bar)) == NonEmpty(ps)
  {
    SplitJoin(ps, Bar);
  }

  /** A genres field written as non-empty names joined by `|` yields exactly
      those names, in the same order. */
  lemma GenreNamesOfJoin(names: seq<string>)
    requires |names| >= 1
    requires forall i :: 0 <= i < |names| ==> names[i] != [] && Bar !in names[i]
    ensures GenreNames(Join(names, Bar)) == names
  {
    GenreNamesOfPieces(names);
    NonEmptyOfNonEmpty(names);
  }

  /** An ordinary genres field. */
  lemma GenreNamesOrdinary()
    ensures GenreNames("Adventure|Comedy") == ["Adventure", "Comedy"]
  {
    GenreNamesOfJoin(["Adventure", "Comedy"]);
    assert Join(["Adventure", "Comedy"], Bar) == "Adventure|Comedy";
  }

  /** An empty genres field yields no genre at all. */
  lemma GenreNamesEmpty()
    ensures GenreNames("") == []
  {
    assert Split("", Bar) == [""];
  }

  /** Stray separators produce empty pieces, which are dropped. */
  lemma GenreNamesStray()
    ensures GenreNames("|Drama|") == ["Drama"]
  {
    var s := "|Drama|";
    SplitPrefix("Drama", "|", Bar);
    assert "Drama" + "|" == s[1..];
    assert "Drama" + "" == "Drama";
    assert Split("|", Bar) == ["", ""];
    assert Split(s[1..], Bar) == ["Drama", ""];
    assert Split(s, Bar) == ["", "Drama", ""];
    assert NonEmpty(["", "Drama", ""]) == ["Drama"];
  }
}
