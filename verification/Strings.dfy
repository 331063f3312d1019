/** Splitting at a separator and joining again, as strings.Split and strings.Join do for one character. */
module Strings {

  function Split(s: string, sep: char): (parts: seq<string>)
    ensures |parts| >= 1
  {
    if s == "" then [""]
    else
      var rest := Split(s[1..], sep);
      if s[0] == sep then [""] + rest else [[s[0]] + rest[0]] + rest[1..]
  }

  function Join(parts: seq<string>, sep: char): string {
    if parts == [] then ""
    else if |parts| == 1 then parts[0]
    else parts[0] + [sep] + Join(parts[1..], sep)
  }

  lemma {:induction false} SplitPiece(s: string, sep: char)
    requires sep !in s
    ensures Split(s, sep) == [s]
  {
    if s != "" {
      SplitPiece(s[1..], sep);
      assert [s[0]] + s[1..] == s;
    }
  }

  lemma {:induction false} SplitAt(a: string, b: string, sep: char)
    requires sep !in a
    ensures Split(a + [sep] + b, sep) == [a] + Split(b, sep)
  {
    var s := a + [sep] + b;
    if a == "" {
      assert s[1..] == b;
    } else {
      assert s[0] == a[0] && s[1..] == a[1..] + [sep] + b;
      SplitAt(a[1..], b, sep);
      assert [a[0]] + a[1..] == a;
    }
  }

  lemma {:induction false} PiecesLackSeparator(s: string, sep: char)
    ensures forall p :: p in Split(s, sep) ==> sep !in p
  {
    if s != "" {
      PiecesLackSeparator(s[1..], sep);
    }
  }

  lemma {:induction false} JoinOfSplit(s: string, sep: char)
    ensures Join(Split(s, sep), sep) == s
  {
    if s != "" {
      JoinOfSplit(s[1..], sep);
      var rest := Split(s[1..], sep);
      if s[0] == sep {
        assert ([""] + rest)[1..] == rest;
      } else {
        assert ([[s[0]] + rest[0]] + rest[1..])[1..] == rest[1..];
      }
    }
  }

  /** Splitting undoes joining exactly for nonempty lists of strings without the separator. */
  lemma {:induction false} SplitOfJoin(parts: seq<string>, sep: char)
    ensures Split(Join(parts, sep), sep) == parts <==> parts != [] && forall p :: p in parts ==> sep !in p
    decreases |parts|
  {
    if parts != [] && (forall p :: p in parts ==> sep !in p) {
      if |parts| == 1 {
        SplitPiece(parts[0], sep);
      } else {
        SplitOfJoin(parts[1..], sep);
        SplitAt(parts[0], Join(parts[1..], sep), sep);
      }
    } else {
      PiecesLackSeparator(Join(parts, sep), sep);
    }
  }

  /** Two lists of pieces run together: the last piece of one and the first of the other are one piece. */
  function Glue(a: seq<string>, b: seq<string>): seq<string>
    requires a != [] && b != []
  {
    a[..|a| - 1] + [a[|a| - 1] + b[0]] + b[1..]
  }

  lemma GlueLonger(p: string, a: seq<string>, b: seq<string>)
    requires a != [] && b != []
    ensures Glue([p] + a, b) == [p] + Glue(a, b)
  {
    assert ([p] + a)[..|a|] == [p] + a[..|a| - 1];
  }

  lemma GlueFirst(c: char, a: seq<string>, b: seq<string>)
    requires a != [] && b != []
    ensures Glue([[c] + a[0]] + a[1..], b) == [[c] + Glue(a, b)[0]] + Glue(a, b)[1..]
  {
    if |a| == 1 {
      assert ([c] + a[0]) + b[0] == [c] + (a[0] + b[0]);
    } else {
      assert ([[c] + a[0]] + a[1..])[..|a| - 1] == [[c] + a[0]] + a[1..|a| - 1];
    }
  }

  /** The last piece of one string and the first of the next grow together. */
  lemma {:induction false} SplitConcat(a: string, b: string, sep: char)
    ensures Split(a + b, sep) == Glue(Split(a, sep), Split(b, sep))
  {
    if a == "" {
      assert a + b == b;
      assert "" + Split(b, sep)[0] == Split(b, sep)[0];
    } else {
      assert (a + b)[0] == a[0] && (a + b)[1..] == a[1..] + b;
      SplitConcat(a[1..], b, sep);
      GlueLonger("", Split(a[1..], sep), Split(b, sep));
      GlueFirst(a[0], Split(a[1..], sep), Split(b, sep));
    }
  }
}
