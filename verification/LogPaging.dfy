/** Paging through a build log that grows while it is polled. */
module LogPaging {
  import opened Strings

  function Parts(body: string): (parts: seq<string>)
    ensures |parts| >= 1
  {
    Split(body, '\n')
  }

  function NonEmpty(parts: seq<string>): seq<string> {
    if parts == [] then []
    else
      NonEmpty(parts[..|parts| - 1]) + if parts[|parts| - 1] == "" then [] else [parts[|parts| - 1]]
  }

  datatype Page = Page(next: nat, lines: seq<string>) | OutOfRange

  function PageAt(body: string, index: nat): Page {
    var parts := Parts(body);
    if index > |parts| then OutOfRange else Page(|parts| - 1, NonEmpty(parts[index..]))
  }

  lemma NoPieceIsNewline(body: string)
    ensures forall p :: p in Parts(body) ==> p != "\n"
  {
    PiecesLackSeparator(body, '\n');
    assert "\n"[0] == '\n';
  }

  method BuildLogs(body: string, index: nat) returns (page: Page)
    ensures page == PageAt(body, index)
  {
    var parts := Split(body, '\n');
    if index > |parts| {
      return OutOfRange;
    }
    var lines: seq<string> := [];
    var rest := parts[index..];
    NoPieceIsNewline(body);
    for i := 0 to |rest|
      invariant lines == NonEmpty(rest[..i])
    {
      assert rest[..i + 1][..i] == rest[..i];
      var line := rest[i];
      assert line == parts[index + i] && line in Parts(body);
      assert rest[..i + 1][i] == line;
      if |line| > 0 && line != "\n" {
        lines := lines + [line];
      }
    }
    assert rest[..|rest|] == rest;
    page := Page(|parts| - 1, lines);
  }

  /** The log as the polls find it: each time as before or longer. */
  ghost predicate Growing(bodies: seq<string>) {
    forall i, j :: 0 <= i <= j < |bodies| ==> bodies[i] <= bodies[j]
  }

  /** The position that poll k starts from. */
  function Position(bodies: seq<string>, k: nat): nat
    requires k <= |bodies|
  {
    if k == 0 then 0 else |Parts(bodies[k - 1])| - 1
  }

  /** What the first k polls have shown. */
  function Shown(bodies: seq<string>, k: nat): seq<string>
    requires k <= |bodies|
  {
    if k == 0 then []
    else
      match PageAt(bodies[k - 1], Position(bodies, k - 1))
      case OutOfRange => Shown(bodies, k - 1)
      case Page(_, lines) => Shown(bodies, k - 1) + lines
  }

  /** The lines of the log that are complete, and the one that is still being written. */
  function Complete(body: string): seq<string> {
    Parts(body)[..|Parts(body)| - 1]
  }

  function Partial(body: string): string {
    Parts(body)[|Parts(body)| - 1]
  }

  lemma {:induction false} NonEmptyConcat(a: seq<string>, b: seq<string>)
    ensures NonEmpty(a + b) == NonEmpty(a) + NonEmpty(b)
    decreases |b|
  {
    if b == [] {
      assert a + b == a;
    } else {
      var n := |b| - 1;
      NonEmptyConcat(a, b[..n]);
      assert (a + b)[..|a| + n] == a + b[..n];
    }
  }

  /** Complete lines stay where they are while the log grows. */
  lemma CompleteLinesStay(body: string, longer: string)
    requires body <= longer
    ensures |Complete(body)| <= |Complete(longer)|
    ensures Complete(longer)[..|Complete(body)|] == Complete(body)
  {
    var more := longer[|body|..];
    assert longer == body + more;
    SplitConcat(body, more, '\n');
  }

  /** The position never passes the end of the log. */
  lemma PositionInRange(bodies: seq<string>, k: nat)
    requires Growing(bodies) && k < |bodies|
    ensures Position(bodies, k) <= |Complete(bodies[k])|
    ensures PageAt(bodies[k], Position(bodies, k)).Page?
  {
    if k > 0 {
      CompleteLinesStay(bodies[k - 1], bodies[k]);
    }
  }

  /** How many of the first k polls ended in the middle of a line. */
  function MidLine(bodies: seq<string>, k: nat): nat
    requires k <= |bodies|
  {
    if k == 0 then 0 else MidLine(bodies, k - 1) + if Partial(bodies[k - 1]) == "" then 0 else 1
  }

  /** The pages without the unfinished line at the end of each. */
  function ShownComplete(bodies: seq<string>, k: nat): seq<string>
    requires k <= |bodies| && Growing(bodies)
  {
    if k == 0 then []
    else
      PositionInRange(bodies, k - 1);
      ShownComplete(bodies, k - 1) + NonEmpty(Complete(bodies[k - 1])[Position(bodies, k - 1)..])
  }

  lemma PageSplits(body: string, index: nat)
    requires index <= |Complete(body)|
    ensures PageAt(body, index).Page?
    ensures PageAt(body, index).lines
         == NonEmpty(Complete(body)[index..]) + if Partial(body) == "" then [] else [Partial(body)]
  {
    var parts := Parts(body);
    assert parts[index..][..|parts[index..]| - 1] == Complete(body)[index..];
  }

  lemma {:induction false} CompletePagesAreLines(bodies: seq<string>, k: nat)
    requires Growing(bodies) && 0 < k <= |bodies|
    ensures ShownComplete(bodies, k) == NonEmpty(Complete(bodies[k - 1]))
  {
    var last := Complete(bodies[k - 1]);
    PositionInRange(bodies, k - 1);
    var p := Position(bodies, k - 1);
    if k > 1 {
      CompletePagesAreLines(bodies, k - 1);
      CompleteLinesStay(bodies[k - 2], bodies[k - 1]);
      assert last == Complete(bodies[k - 2]) + last[p..];
      NonEmptyConcat(Complete(bodies[k - 2]), last[p..]);
    } else {
      assert last[0..] == last;
    }
  }

  lemma {:induction false} ShownCount(bodies: seq<string>, k: nat)
    requires Growing(bodies) && k <= |bodies|
    ensures |Shown(bodies, k)| == |ShownComplete(bodies, k)| + MidLine(bodies, k)
    ensures MidLine(bodies, k) == 0 ==> Shown(bodies, k) == ShownComplete(bodies, k)
  {
    if k > 0 {
      ShownCount(bodies, k - 1);
      PositionInRange(bodies, k - 1);
      PageSplits(bodies[k - 1], Position(bodies, k - 1));
    }
  }

  /** All of a stands in b, in order and each at a place of its own. */
  predicate Subsequence(a: seq<string>, b: seq<string>) {
    a == [] || (b != [] &&
      var shorter := b[..|b| - 1];
      (a[|a| - 1] == b[|b| - 1] && Subsequence(a[..|a| - 1], shorter)) || Subsequence(a, shorter))
  }

  lemma {:induction false} SubsequenceExtends(a: seq<string>, b: seq<string>, c: seq<string>, d: seq<string>)
    requires Subsequence(a, b)
    ensures Subsequence(a + c, b + c + d)
    decreases |c| + |d|
  {
    if d != [] {
      var n := |d| - 1;
      SubsequenceExtends(a, b, c, d[..n]);
      assert (b + c + d)[..|b + c| + n] == b + c + d[..n];
    } else if c != [] {
      var n := |c| - 1;
      SubsequenceExtends(a, b, c[..n], []);
      assert b + c + d == b + c;
      assert (a + c)[..|a| + n] == a + c[..n] && (b + c)[..|b| + n] == b + c[..n] + [];
    } else {
      assert a + c == a && b + c + d == b;
    }
  }

  lemma PagePieces(bodies: seq<string>, k: nat) returns (page: seq<string>, tail: seq<string>)
    requires Growing(bodies) && 0 < k <= |bodies|
    ensures ShownComplete(bodies, k) == ShownComplete(bodies, k - 1) + page
    ensures Shown(bodies, k) == Shown(bodies, k - 1) + page + tail
  {
    hide Growing, NonEmpty, Partial, Parts;
    var body, p := bodies[k - 1], Position(bodies, k - 1);
    PositionInRange(bodies, k - 1);
    PageSplits(body, p);
    page := NonEmpty(Complete(body)[p..]);
    tail := if Partial(body) == "" then [] else [Partial(body)];
    assert Shown(bodies, k - 1) + page + tail == Shown(bodies, k - 1) + (page + tail);
  }

  lemma {:induction false} CompleteAmongShown(bodies: seq<string>, k: nat)
    requires Growing(bodies) && k <= |bodies|
    ensures Subsequence(ShownComplete(bodies, k), Shown(bodies, k))
  {
    if k > 0 {
      CompleteAmongShown(bodies, k - 1);
      var page, tail := PagePieces(bodies, k);
      hide Subsequence, Growing, Shown, ShownComplete;
      SubsequenceExtends(ShownComplete(bodies, k - 1), Shown(bodies, k - 1), page, tail);
    }
  }

  /**
   However the log grows, every complete nonempty line is among the lines that are shown, in order and
   each at a place of its own; beside them stands one unfinished line for each poll in the middle of one.
   */
  lemma NoLineLost(bodies: seq<string>, k: nat)
    requires Growing(bodies) && 0 < k <= |bodies|
    ensures Subsequence(NonEmpty(Complete(bodies[k - 1])), Shown(bodies, k))
    ensures |Shown(bodies, k)| == |NonEmpty(Complete(bodies[k - 1]))| + MidLine(bodies, k)
  {
    CompletePagesAreLines(bodies, k);
    CompleteAmongShown(bodies, k);
    ShownCount(bodies, k);
  }

  /** A line that is complete at one poll can have been shown before: the poll before found it unfinished. */
  lemma LineShownTwice()
    ensures Shown(["abc", "abc\n"], 2) == ["abc", "abc"]
  {
    var bodies := ["abc", "abc\n"];
    SplitPiece("abc", '\n');
    assert "abc" + ['\n'] + "" == "abc\n";
    SplitAt("abc", "", '\n');
    assert Parts("abc") == ["abc"] && Parts("abc\n") == ["abc", ""];
    assert ["abc"][0..] == ["abc"] && ["abc", ""][0..] == ["abc", ""];
    assert ["abc", ""][..1] == ["abc"];
    assert NonEmpty(["abc"]) == ["abc"] && NonEmpty(["abc", ""]) == ["abc"];
    assert Shown(bodies, 0) == [] && Shown(bodies, 1) == ["abc"];
  }

  /** The pages are exactly the nonempty lines of the log if and only if every poll but the last found a line end. */
  lemma PagesAreLogIff(bodies: seq<string>)
    requires Growing(bodies) && bodies != []
    ensures Shown(bodies, |bodies|) == NonEmpty(Parts(bodies[|bodies| - 1])) <==> MidLine(bodies, |bodies| - 1) == 0
  {
    hide Growing, Shown, ShownComplete, NonEmpty, MidLine, Parts;
    var page, tail := LastPage(bodies);
    ShownCount(bodies, |bodies| - 1);
    TailCancels(Shown(bodies, |bodies| - 1), ShownComplete(bodies, |bodies| - 1), page + tail);
  }

  lemma TailCancels(a: seq<string>, b: seq<string>, tail: seq<string>)
    ensures a + tail == b + tail <==> a == b
  {
    if a + tail == b + tail {
      assert a == (a + tail)[..|a|] && b == (b + tail)[..|b|];
    }
  }

  lemma LastPage(bodies: seq<string>) returns (page: seq<string>, tail: seq<string>)
    requires Growing(bodies) && bodies != []
    ensures Shown(bodies, |bodies|) == Shown(bodies, |bodies| - 1) + (page + tail)
    ensures NonEmpty(Parts(bodies[|bodies| - 1])) == ShownComplete(bodies, |bodies| - 1) + (page + tail)
  {
    var n := |bodies|;
    var last, p := bodies[n - 1], Position(bodies, n - 1);
    hide Growing, NonEmpty, Position, Parts, Partial;
    CompletePagesAreLines(bodies, n);
    PositionInRange(bodies, n - 1);
    PageSplits(last, p);
    page := NonEmpty(Complete(last)[p..]);
    tail := if Partial(last) == "" then [] else [Partial(last)];
    WholeLog(last);
    assert ShownComplete(bodies, n - 1) + page + tail == ShownComplete(bodies, n - 1) + (page + tail);
  }

  lemma WholeLog(body: string)
    ensures NonEmpty(Parts(body)) == NonEmpty(Complete(body)) + if Partial(body) == "" then [] else [Partial(body)]
  {
    PageSplits(body, 0);
    assert Complete(body)[0..] == Complete(body) && Parts(body)[0..] == Parts(body);
  }

  lemma SplitOne(c: char, sep: char)
    ensures Split([c], sep) == if c == sep then ["", ""] else [[c]]
  {
    assert [c][1..] == "" && [c] + "" == [c];
    assert [""] + [""] == ["", ""];
  }

  /** A log that is empty or ends with a line end has no unfinished line. */
  lemma {:induction false} WholeLines(body: string)
    ensures Partial(body) == "" <==> body == "" || body[|body| - 1] == '\n'
  {
    if body != "" {
      var n := |body| - 1;
      assert body == body[..n] + [body[n]];
      SplitConcat(body[..n], [body[n]], '\n');
      SplitOne(body[n], '\n');
    }
  }

  /** The polling loop of the client, which prints the lines of each page. */
  method FollowBuild(bodies: seq<string>) returns (printed: seq<string>, index: nat)
    requires Growing(bodies)
    ensures printed == Shown(bodies, |bodies|) && index == Position(bodies, |bodies|)
  {
    printed, index := [], 0;
    for k := 0 to |bodies|
      invariant printed == Shown(bodies, k) && index == Position(bodies, k)
    {
      PositionInRange(bodies, k);
      var page := BuildLogs(bodies[k], index);
      index := page.next;
      printed := printed + page.lines;
    }
  }
}
