/**
 Resource names in camel case: dashes dropped, the letter behind each dash in upper case.  A name is a
 string of bytes, and the letter is one byte: what the upper case of a byte is that is no character
 of its own is left to `upper`, which says what the library makes of a single byte.
 */
module Names {
  import opened Strings

  /** On ASCII the upper case is the usual one, and no other byte has a dash in it. */
  ghost predicate IsUpper(upper: char -> string) {
    forall c: char :: if c < '\U{80}' then upper(c) == [Upper(c)] else '-' !in upper(c)
  }

  function Upper(c: char): char {
    if 'a' <= c <= 'z' then (c as int - 32) as char else c
  }

  function Title(s: string, upper: char -> string): string {
    if s == "" then "" else upper(s[0]) + s[1..]
  }

  function Titles(pieces: seq<string>, upper: char -> string): string {
    if pieces == [] then "" else Title(pieces[0], upper) + Titles(pieces[1..], upper)
  }

  function Dashes(s: string): nat {
    if s == "" then 0 else Dashes(s[1..]) + if s[0] == '-' then 1 else 0
  }

  lemma {:induction false} DashesConcat(a: string, b: string)
    ensures Dashes(a + b) == Dashes(a) + Dashes(b)
  {
    if a == "" {
      assert a + b == b;
    } else {
      assert (a + b)[0] == a[0] && (a + b)[1..] == a[1..] + b;
      DashesConcat(a[1..], b);
    }
  }

  lemma {:induction false} NoDashes(s: string)
    requires '-' !in s
    ensures Dashes(s) == 0
  {
    if s != "" {
      NoDashes(s[1..]);
    }
  }

  lemma TitleDashes(s: string, upper: char -> string)
    requires IsUpper(upper)
    ensures Dashes(Title(s, upper)) == Dashes(s)
  {
    if s != "" {
      DashesConcat(upper(s[0]), s[1..]);
      if s[0] == '-' {
        assert upper('-') == "-" && Dashes("-") == 1;
      } else {
        assert '-' !in upper(s[0]);
        NoDashes(upper(s[0]));
      }
    }
  }

  lemma IndexSplits(s: string, i: nat)
    requires i < |s| && s[i] == '-' && '-' !in s[..i]
    ensures Split(s, '-') == [s[..i]] + Split(s[i + 1..], '-')
    ensures Dashes(s) == 1 + Dashes(s[i + 1..])
  {
    assert s == s[..i] + ['-'] + s[i + 1..];
    SplitAt(s[..i], s[i + 1..], '-');
    DashesConcat(s[..i] + ['-'], s[i + 1..]);
    DashesConcat(s[..i], ['-']);
    NoDashes(s[..i]);
    assert Dashes(['-']) == 1;
  }

  lemma SplitTitle(s: string, upper: char -> string)
    requires IsUpper(upper)
    ensures Split(Title(s, upper), '-') == [Title(Split(s, '-')[0], upper)] + Split(s, '-')[1..]
  {
    if s == "" {
    } else if s[0] == '-' {
      assert upper('-') == "-";
      assert Title(s, upper) == s;
    } else {
      assert '-' !in upper(s[0]);
      SplitLetter(s, upper);
    }
  }

  lemma SplitLetter(s: string, upper: char -> string)
    requires s != "" && s[0] != '-' && '-' !in upper(s[0])
    ensures Split(Title(s, upper), '-') == [Title(Split(s, '-')[0], upper)] + Split(s, '-')[1..]
  {
    var first, rest := upper(s[0]), Split(s[1..], '-');
    SplitPiece(first, '-');
    SplitConcat(first, s[1..], '-');
    var pieces := Split(s, '-');
    assert pieces == [[s[0]] + rest[0]] + rest[1..];
    hide Split;
    assert Glue([first], rest) == [first + rest[0]] + rest[1..];
    assert pieces[0][0] == s[0] && pieces[0][1..] == rest[0];
  }

  /** What is left of the work when the part before the first dash is done. */
  function Camel(us: string, upper: char -> string): string {
    var pieces := Split(us, '-');
    pieces[0] + Titles(pieces[1..], upper)
  }

  lemma GlueTitle(head: string, r: seq<string>, upper: char -> string)
    requires r != []
    ensures var g := Glue([head], [Title(r[0], upper)] + r[1..]);
            g[0] + Titles(g[1..], upper) == head + Titles(r, upper)
  {
    hide Title;
    var g := Glue([head], [Title(r[0], upper)] + r[1..]);
    assert g == [head + Title(r[0], upper)] + r[1..];
    assert g[1..] == r[1..];
  }

  lemma CamelStep(us: string, i: nat, upper: char -> string)
    requires i < |us| && us[i] == '-' && '-' !in us[..i] && IsUpper(upper)
    ensures Camel(us[..i] + Title(us[i + 1..], upper), upper) == Camel(us, upper)
    ensures Dashes(us[..i] + Title(us[i + 1..], upper)) < Dashes(us)
  {
    hide Split, Title, Titles, Glue, Dashes, IsUpper;
    var head, rest := us[..i], us[i + 1..];
    IndexSplits(us, i);
    SplitTitle(rest, upper);
    SplitPiece(head, '-');
    SplitConcat(head, Title(rest, upper), '-');
    GlueTitle(head, Split(rest, '-'), upper);
    assert Split(us, '-')[1..] == Split(rest, '-');
    DashesConcat(head, Title(rest, upper));
    NoDashes(head);
    TitleDashes(rest, upper);
  }

  method IndexOfDash(us: string) returns (i: nat)
    ensures i <= |us| && '-' !in us[..i] && (i < |us| ==> us[i] == '-')
  {
    i := 0;
    while i < |us| && us[i] != '-'
      invariant i <= |us| && '-' !in us[..i]
    {
      assert us[..i + 1] == us[..i] + [us[i]];
      i := i + 1;
    }
  }

  /** The name in camel case is the pieces between the dashes, each with its first letter in upper case. */
  method UpperName(name: string, upper: char -> string) returns (us: string, panicked: bool)
    requires IsUpper(upper)
    ensures panicked <==> name == ""
    ensures !panicked ==> us == Titles(Split(name, '-'), upper) && '-' !in us
  {
    panicked := name == "";
    if panicked {
      return "", true;
    }
    us := upper(name[0]) + name[1..];
    CamelStarts(name, upper);
    hide IsUpper, Split, Title, Titles, Camel, Dashes;
    while true
      invariant Camel(us, upper) == Titles(Split(name, '-'), upper)
      decreases Dashes(us)
    {
      var i := IndexOfDash(us);
      if i == |us| {
        break;
      }
      CamelStep(us, i, upper);
      var s := us[..i];
      if |us| > i + 1 {
        s := s + upper(us[i + 1]);
      }
      if |us| > i + 2 {
        s := s + us[i + 2..];
      }
      TitleAt(us, i, upper);
      us := s;
    }
    assert us[..|us|] == us;
    CamelEnds(us, upper);
  }

  lemma TitleAt(us: string, i: nat, upper: char -> string)
    requires i < |us|
    ensures i + 1 == |us| ==> us[..i] + Title(us[i + 1..], upper) == us[..i]
    ensures i + 2 == |us| ==> us[..i] + Title(us[i + 1..], upper) == us[..i] + upper(us[i + 1])
    ensures i + 2 < |us| ==> us[..i] + Title(us[i + 1..], upper) == us[..i] + upper(us[i + 1]) + us[i + 2..]
  {
    if i + 1 < |us| {
      assert us[i + 1..][1..] == us[i + 2..];
      assert us[..i] + (upper(us[i + 1]) + us[i + 2..]) == us[..i] + upper(us[i + 1]) + us[i + 2..];
    }
  }

  lemma CamelStarts(name: string, upper: char -> string)
    requires name != "" && IsUpper(upper)
    ensures Camel(upper(name[0]) + name[1..], upper) == Titles(Split(name, '-'), upper)
  {
    SplitTitle(name, upper);
  }

  lemma CamelEnds(us: string, upper: char -> string)
    requires '-' !in us
    ensures Camel(us, upper) == us
  {
    SplitPiece(us, '-');
  }

  /** Each piece between dashes starts with what the library makes of its first byte, and is kept otherwise. */
  lemma TitlesMeaning(piece: string, rest: string, upper: char -> string)
    requires '-' !in piece
    ensures Titles(Split(piece, '-'), upper) == if piece == "" then "" else upper(piece[0]) + piece[1..]
    ensures Titles(Split(piece + "-" + rest, '-'), upper)
         == Titles(Split(piece, '-'), upper) + Titles(Split(rest, '-'), upper)
  {
    SplitPiece(piece, '-');
    SplitAt(piece, rest, '-');
    assert [piece][1..] == [] && ([piece] + Split(rest, '-'))[1..] == Split(rest, '-');
    assert Titles([piece], upper) == Title(piece, upper) + "";
  }
}
