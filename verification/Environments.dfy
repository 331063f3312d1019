/** Environments as lines KEY=VALUE: printed in any order of the keys, and loaded again. */
module Environments {
  import opened Strings

  type Env = map<string, string>

  // Loading

  /** What a line scanner strips from the end of a line. */
  function DropCR(line: string): string {
    if line != "" && line[|line| - 1] == '\r' then line[..|line| - 1] else line
  }

  /** The lines of a text; nothing behind the last line end is not a line. */
  function Lines(data: string): seq<string> {
    var pieces := Split(data, '\n');
    if pieces[|pieces| - 1] == "" then pieces[..|pieces| - 1] else pieces
  }

  /** White space as Unicode defines it. */
  predicate IsSpace(c: char) {
    || c in "\t\n\r " || c == '\U{0B}' || c == '\U{0C}' || c == '\U{85}' || c == '\U{A0}' || c == '\U{1680}'
    || '\U{2000}' <= c <= '\U{200A}'
    || c == '\U{2028}' || c == '\U{2029}' || c == '\U{202F}' || c == '\U{205F}' || c == '\U{3000}'
  }

  function TrimLeft(s: string): string {
    if s != "" && IsSpace(s[0]) then TrimLeft(s[1..]) else s
  }

  function TrimRight(s: string): string {
    if s != "" && IsSpace(s[|s| - 1]) then TrimRight(s[..|s| - 1]) else s
  }

  function TrimSpace(s: string): string {
    TrimRight(TrimLeft(s))
  }

  function FirstEquals(s: string): (i: nat)
    ensures i <= |s| && '=' !in s[..i] && (i < |s| ==> s[i] == '=')
  {
    if s == "" || s[0] == '=' then 0
    else
      var i := FirstEquals(s[1..]);
      assert s[..i + 1] == [s[0]] + s[1..][..i];
      i + 1
  }

  function Apply(e: Env, line: string): Env {
    var text := DropCR(line);
    var i := FirstEquals(text);
    if i == |text| then e
    else
      var key := TrimSpace(text[..i]);
      if key == "" then e else e[key := text[i + 1..]]
  }

  function ApplyAll(e: Env, lines: seq<string>): Env {
    if lines == [] then e else Apply(ApplyAll(e, lines[..|lines| - 1]), lines[|lines| - 1])
  }

  function Load(data: string): Env {
    ApplyAll(map[], Lines(data))
  }

  method FindEquals(text: string) returns (i: nat)
    ensures i == FirstEquals(text)
  {
    i := 0;
    while i < |text| && text[i] != '='
      invariant i <= |text| && '=' !in text[..i]
    {
      assert text[..i + 1] == text[..i] + [text[i]];
      i := i + 1;
    }
    SameFirstEquals(text, i);
  }

  method LoadEnvironment(data: string) returns (e: Env)
    ensures e == Load(data)
  {
    hide Lines, DropCR, TrimSpace, FirstEquals;
    e := map[];
    var lines := Lines(data);
    for k := 0 to |lines|
      invariant e == ApplyAll(map[], lines[..k])
    {
      assert lines[..k + 1][..k] == lines[..k];
      var text := DropCR(lines[k]);
      var i := FindEquals(text);
      if i < |text| {
        var key := TrimSpace(text[..i]);
        if key != "" {
          e := e[key := text[i + 1..]];
        }
      }
    }
    assert lines[..|lines|] == lines;
  }

  lemma SameFirstEquals(s: string, i: nat)
    requires i <= |s| && '=' !in s[..i] && (i < |s| ==> s[i] == '=')
    ensures FirstEquals(s) == i
  {
    var j := FirstEquals(s);
    forall t | 0 <= t < i ensures s[t] != '=' {
      assert s[..i][t] == s[t];
    }
    forall t | 0 <= t < j ensures s[t] != '=' {
      assert s[..j][t] == s[t];
    }
  }

  // Printing

  function Entry(key: string, value: string): string {
    key + "=" + value
  }

  function Print(e: Env, keys: seq<string>): string
    requires forall k :: k in keys ==> k in e
  {
    if keys == [] then ""
    else
      var n := |keys| - 1;
      Print(e, keys[..n]) + Entry(keys[n], e[keys[n]]) + "\n"
  }

  ghost predicate Enumerates(keys: seq<string>, e: Env) {
    forall k :: k in keys <==> k in e
  }

  method PrintEnvironment(e: Env, keys: seq<string>) returns (data: string)
    requires forall k :: k in keys ==> k in e
    ensures data == Print(e, keys)
  {
    data := "";
    for i := 0 to |keys|
      invariant data == Print(e, keys[..i])
    {
      assert keys[..i + 1][..i] == keys[..i];
      data := data + (keys[i] + "=" + e[keys[i]] + "\n");
      assert keys[i] + "=" + e[keys[i]] + "\n" == Entry(keys[i], e[keys[i]]) + "\n";
    }
    assert keys[..|keys|] == keys;
  }

  // The round trip

  predicate GoodKey(k: string) {
    k != "" && TrimSpace(k) == k && '=' !in k && '\n' !in k
  }

  /** What printing and loading leaves of an environment: values may lose a carriage return at the end. */
  ghost function Stripped(e: Env): Env {
    map k | k in e :: DropCR(e[k])
  }

  ghost predicate OneLine(e: Env) {
    forall k :: k in e ==> GoodKey(k) && '\n' !in e[k]
  }

  ghost predicate Printable(e: Env) {
    forall k :: k in e ==> GoodKey(k) && '\n' !in e[k] && (e[k] == "" || e[k][|e[k]| - 1] != '\r')
  }

  /** The lines of a text that ends with a line end, followed by one more text and a line end. */
  lemma LinesAppendText(data: string, text: string)
    requires data == "" || data[|data| - 1] == '\n'
    ensures Lines(data + text + "\n") == Lines(data) + Split(text, '\n')
  {
    hide Split, Glue;
    var a := Split(data, '\n');
    EndsWithEmpty(data);
    SplitTerminated(text);
    SplitConcat(data, text + "\n", '\n');
    assert data + (text + "\n") == data + text + "\n";
    GluePieces(a, Split(text, '\n'));
  }

  lemma LinesAppend(data: string, line: string)
    requires '\n' !in line && (data == "" || data[|data| - 1] == '\n')
    ensures Lines(data + line + "\n") == Lines(data) + [line]
  {
    hide Lines;
    LinesAppendText(data, line);
    SplitPiece(line, '\n');
  }

  lemma SplitTerminated(text: string)
    ensures Split(text + "\n", '\n') == Split(text, '\n') + [""]
  {
    var a := Split(text, '\n');
    SplitNewline();
    SplitConcat(text, "\n", '\n');
    hide Split;
    assert a[|a| - 1] + "" == a[|a| - 1];
    assert a == a[..|a| - 1] + [a[|a| - 1]];
  }

  lemma SplitNewline()
    ensures Split("\n", '\n') == ["", ""]
  {
    assert "\n"[1..] == "";
    assert [""] + [""] == ["", ""];
  }

  lemma GluePieces(a: seq<string>, pieces: seq<string>)
    requires a != [] && a[|a| - 1] == "" && pieces != []
    ensures var all := Glue(a, pieces + [""]);
            |all| >= 1 && all[|all| - 1] == "" && all[..|all| - 1] == a[..|a| - 1] + pieces
  {
    assert "" + pieces[0] == pieces[0];
    assert pieces == [pieces[0]] + pieces[1..];
    assert (pieces + [""])[1..] == pieces[1..] + [""];
  }

  lemma {:induction false} EndsWithEmpty(data: string)
    requires data == "" || data[|data| - 1] == '\n'
    ensures Split(data, '\n')[|Split(data, '\n')| - 1] == ""
  {
    if data != "" {
      var n := |data| - 1;
      assert data == data[..n] + "\n";
      SplitConcat(data[..n], "\n", '\n');
      SplitNewline();
    }
  }

  lemma PrintEndsLine(e: Env, keys: seq<string>)
    requires forall k :: k in keys ==> k in e
    ensures Print(e, keys) == "" || Print(e, keys)[|Print(e, keys)| - 1] == '\n'
  {
  }

  lemma ApplyEntry(e: Env, key: string, value: string)
    requires GoodKey(key)
    ensures Apply(e, Entry(key, value)) == e[key := DropCR(value)]
  {
    var line := Entry(key, value);
    var text := DropCR(line);
    assert text == key + "=" + DropCR(value) by {
      if value != "" {
        assert line[|line| - 1] == value[|value| - 1];
        assert line[..|line| - 1] == key + "=" + value[..|value| - 1];
      } else {
        assert line[|line| - 1] == '=';
      }
    }
    assert text[..|key|] == key && text[|key|] == '=' && text[|key| + 1..] == DropCR(value);
    SameFirstEquals(text, |key|);
  }

  lemma EntryIsLine(e: Env, key: string)
    requires OneLine(e) && key in e
    ensures GoodKey(key) && '\n' !in Entry(key, e[key])
  {
  }

  ghost function Restricted(e: Env, keys: seq<string>): Env {
    map k | k in e && k in keys :: e[k]
  }

  function Entries(e: Env, keys: seq<string>): seq<string>
    requires forall k :: k in keys ==> k in e
  {
    if keys == [] then [] else Entries(e, keys[..|keys| - 1]) + [Entry(keys[|keys| - 1], e[keys[|keys| - 1]])]
  }

  lemma {:induction false} LinesPrinted(e: Env, keys: seq<string>)
    requires OneLine(e) && forall k :: k in keys ==> k in e
    ensures Lines(Print(e, keys)) == Entries(e, keys)
    decreases |keys|
  {
    hide OneLine, Entry, GoodKey;
    if keys != [] {
      hide Lines;
      var n := |keys| - 1;
      LinesPrinted(e, keys[..n]);
      PrintEndsLine(e, keys[..n]);
      EntryIsLine(e, keys[n]);
      LinesAppend(Print(e, keys[..n]), Entry(keys[n], e[keys[n]]));
    }
  }

  lemma {:induction false} ApplyEntries(e: Env, keys: seq<string>)
    requires OneLine(e) && forall k :: k in keys ==> k in e
    ensures ApplyAll(map[], Entries(e, keys)) == Stripped(Restricted(e, keys))
    decreases |keys|
  {
    hide Apply, Entry, GoodKey, DropCR, OneLine;
    if keys != [] {
      var n := |keys| - 1;
      var before := Entries(e, keys[..n]);
      ApplyEntries(e, keys[..n]);
      EntryIsLine(e, keys[n]);
      assert Entries(e, keys)[..|before|] == before;
      ApplyEntry(ApplyAll(map[], before), keys[n], e[keys[n]]);
      RestrictedMore(e, keys, n);
    }
  }

  lemma RestrictedMore(e: Env, keys: seq<string>, n: nat)
    requires n < |keys| && n == |keys| - 1 && keys[n] in e
    ensures Stripped(Restricted(e, keys)) == Stripped(Restricted(e, keys[..n]))[keys[n] := DropCR(e[keys[n]])]
  {
    hide DropCR;
    assert keys == keys[..n] + [keys[n]];
  }

  lemma LoadPrinted(e: Env, keys: seq<string>)
    requires OneLine(e) && Enumerates(keys, e)
    ensures Load(Print(e, keys)) == Stripped(e)
  {
    LinesPrinted(e, keys);
    ApplyEntries(e, keys);
    assert Restricted(e, keys) == e;
  }

  // What no loaded environment contains

  lemma {:induction false} TrimIdempotent(s: string)
    ensures TrimSpace(TrimSpace(s)) == TrimSpace(s)
    ensures forall c :: c in TrimSpace(s) ==> c in s
  {
    TrimLeftEnds(s);
    TrimRightEnds(TrimLeft(s));
  }

  lemma {:induction false} TrimLeftEnds(s: string)
    ensures TrimLeft(s) == "" || !IsSpace(TrimLeft(s)[0])
    ensures forall c :: c in TrimLeft(s) ==> c in s
  {
    if s != "" && IsSpace(s[0]) {
      TrimLeftEnds(s[1..]);
    }
  }

  lemma {:induction false} TrimRightEnds(s: string)
    ensures TrimRight(s) == "" || (TrimRight(s)[0] == s[0] && !IsSpace(TrimRight(s)[|TrimRight(s)| - 1]))
    ensures forall c :: c in TrimRight(s) ==> c in s
  {
    if s != "" && IsSpace(s[|s| - 1]) {
      TrimRightEnds(s[..|s| - 1]);
    }
  }

  lemma ApplyKeepsOneLine(e: Env, line: string)
    requires OneLine(e) && '\n' !in line
    ensures OneLine(Apply(e, line))
  {
    var text := DropCR(line);
    var i := FirstEquals(text);
    TrimIdempotent(text[..i]);
    assert forall c :: c in text[..i] ==> c in text;
    assert forall c :: c in text ==> c in line;
    hide TrimSpace, DropCR;
  }

  lemma {:induction false} ApplyAllKeepsOneLine(e: Env, lines: seq<string>)
    requires OneLine(e) && forall l :: l in lines ==> '\n' !in l
    ensures OneLine(ApplyAll(e, lines))
    decreases |lines|
  {
    if lines != [] {
      hide Apply, OneLine;
      ApplyAllKeepsOneLine(e, lines[..|lines| - 1]);
      ApplyKeepsOneLine(ApplyAll(e, lines[..|lines| - 1]), lines[|lines| - 1]);
    }
  }

  /** Whatever the text, a loaded environment has good keys and values of one line. */
  lemma LoadIsOneLine(data: string)
    ensures OneLine(Load(data))
  {
    PiecesLackSeparator(data, '\n');
    ApplyAllKeepsOneLine(map[], Lines(data));
  }

  /** Printing in any order and loading gives the environment back exactly when it is printable. */
  lemma RoundTripIff(e: Env, keys: seq<string>)
    requires Enumerates(keys, e)
    ensures Load(Print(e, keys)) == e <==> Printable(e)
  {
    LoadIsOneLine(Print(e, keys));
    StrippedSameIff(e);
    hide Load, Print, Stripped, OneLine, Printable;
    if OneLine(e) {
      LoadPrinted(e, keys);
    }
  }

  lemma StrippedSameIff(e: Env)
    ensures OneLine(e) ==> (Stripped(e) == e <==> Printable(e))
    ensures Printable(e) ==> OneLine(e)
  {
    hide GoodKey;
    forall k | k in e ensures DropCR(e[k]) == e[k] <==> e[k] == "" || e[k][|e[k]| - 1] != '\r' {
    }
    hide DropCR;
    if Stripped(e) == e {
      forall k | k in e ensures DropCR(e[k]) == e[k] {
        assert Stripped(e)[k] == DropCR(e[k]);
      }
    }
    if forall k :: k in e ==> DropCR(e[k]) == e[k] {
      assert Stripped(e) == e;
    }
  }

  // Setting, unsetting and linking

  function ArgLines(args: seq<string>): string {
    if args == [] then "" else ArgLines(args[..|args| - 1]) + args[|args| - 1] + "\n"
  }

  /** The text that `env set` sends: the environment and the arguments behind it. */
  method SetText(e: Env, keys: seq<string>, args: seq<string>) returns (data: string)
    requires forall k :: k in keys ==> k in e
    ensures data == Print(e, keys) + ArgLines(args)
  {
    data := PrintEnvironment(e, keys);
    for i := 0 to |args|
      invariant data == Print(e, keys) + ArgLines(args[..i])
    {
      assert args[..i + 1][..i] == args[..i];
      data := data + (args[i] + "\n");
      assert data == Print(e, keys) + (ArgLines(args[..i]) + args[i] + "\n");
    }
    assert args[..|args|] == args;
  }

  lemma ArgLinesEnd(args: seq<string>)
    ensures ArgLines(args) == "" || ArgLines(args)[|ArgLines(args)| - 1] == '\n'
  {
  }

  lemma Regroup(a: string, b: string, c: string, d: string)
    ensures a + (b + c + d) == (a + b) + c + d
  {
  }

  /** The lines of the arguments: one for each, unless it has line ends of its own. */
  function ArgPieces(args: seq<string>): seq<string> {
    if args == [] then [] else ArgPieces(args[..|args| - 1]) + Split(args[|args| - 1], '\n')
  }

  lemma {:induction false} PiecesOfLines(args: seq<string>)
    requires forall a :: a in args ==> '\n' !in a
    ensures ArgPieces(args) == args
    decreases |args|
  {
    if args != [] {
      var n := |args| - 1;
      assert args == args[..n] + [args[n]];
      PiecesOfLines(args[..n]);
      SplitPiece(args[n], '\n');
    }
  }

  lemma {:induction false} LinesOfArgs(data: string, args: seq<string>)
    requires data == "" || data[|data| - 1] == '\n'
    ensures Lines(data + ArgLines(args)) == Lines(data) + ArgPieces(args)
    decreases |args|
  {
    hide Lines, Split;
    if args == [] {
      assert data + "" == data;
    } else {
      var n := |args| - 1;
      var first, line := args[..n], args[n];
      LinesOfArgs(data, first);
      ArgLinesEnd(first);
      var before := data + ArgLines(first);
      Regroup(data, ArgLines(first), line, "\n");
      assert data + ArgLines(args) == before + line + "\n";
      hide ArgLines;
      LinesAppendText(before, line);
      assert Lines(data) + ArgPieces(first) + Split(line, '\n') == Lines(data) + (ArgPieces(first) + Split(line, '\n'));
    }
  }

  lemma {:induction false} ApplyAllAppend(e: Env, a: seq<string>, b: seq<string>)
    ensures ApplyAll(e, a + b) == ApplyAll(ApplyAll(e, a), b)
    decreases |b|
  {
    hide Apply;
    if b == [] {
      assert a + b == a;
    } else {
      var n := |b| - 1;
      ApplyAllAppend(e, a, b[..n]);
      assert (a + b)[..|a| + n] == a + b[..n];
    }
  }

  /**
   `env set` is the overlay of its arguments, line by line, over what printing leaves of an environment;
   every environment that the server has loaded is one of lines.
   */
  lemma SetIsOverlay(e: Env, keys: seq<string>, args: seq<string>)
    requires Enumerates(keys, e) && OneLine(e)
    ensures Load(Print(e, keys) + ArgLines(args)) == ApplyAll(Stripped(e), ArgPieces(args))
  {
    LoadPrinted(e, keys);
    PrintEndsLine(e, keys);
    LinesOfArgs(Print(e, keys), args);
    ApplyAllAppend(map[], Lines(Print(e, keys)), ArgPieces(args));
  }

  /** An argument KEY=VALUE sets that key and no other. */
  lemma SetOne(e: Env, keys: seq<string>, key: string, value: string)
    requires Enumerates(keys, e) && OneLine(e) && GoodKey(key) && '\n' !in value
    ensures Load(Print(e, keys) + ArgLines([Entry(key, value)])) == Stripped(e)[key := DropCR(value)]
  {
    var args := [Entry(key, value)];
    SetIsOverlay(e, keys, args);
    EntryHasOneLine(key, value);
    PiecesOfLines(args);
    hide Apply;
    assert args[..0] == [];
    ApplyEntry(Stripped(e), key, value);
  }

  lemma EntryHasOneLine(key: string, value: string)
    requires GoodKey(key) && '\n' !in value
    ensures '\n' !in Entry(key, value)
  {
  }

  method Unset(env: Env, args: seq<string>) returns (e: Env)
    ensures e == env - (set a | a in args)
  {
    e := env;
    for i := 0 to |args|
      invariant e == env - (set a | a in args[..i])
    {
      e := e - {args[i]};
    }
  }

  /** `env unset` removes the keys from what printing leaves, and all that it leaves is there if it is printable. */
  lemma UnsetIsRemoval(e: Env, args: seq<string>, keys: seq<string>)
    requires OneLine(e) && Enumerates(keys, e - (set a | a in args))
    ensures Load(Print(e - (set a | a in args), keys)) == Stripped(e) - (set a | a in args)
    ensures Printable(e) ==> Stripped(e) == e
  {
    var rest := e - (set a | a in args);
    hide GoodKey, Load, Print;
    assert OneLine(rest);
    LoadPrinted(rest, keys);
    assert Stripped(rest) == Stripped(e) - (set a | a in args);
    StrippedSameIff(e);
  }

  /** Linking sets the two variables of the database, in any order of printing, over what printing leaves. */
  lemma LinkIsOverlay(e: Env, url: string, instance: string, keys: seq<string>)
    requires OneLine(e) && '\n' !in url && '\n' !in instance
    requires Enumerates(keys, e["DATABASE_URL" := url]["INSTANCE_NAME" := instance])
    ensures Load(Print(e["DATABASE_URL" := url]["INSTANCE_NAME" := instance], keys))
         == Stripped(e)["DATABASE_URL" := DropCR(url)]["INSTANCE_NAME" := DropCR(instance)]
  {
    var linked := e["DATABASE_URL" := url]["INSTANCE_NAME" := instance];
    LinkKeysAreGood();
    hide GoodKey, Load, Print, DropCR;
    assert OneLine(linked);
    LoadPrinted(linked, keys);
    assert Stripped(linked) == Stripped(e)["DATABASE_URL" := DropCR(url)]["INSTANCE_NAME" := DropCR(instance)];
  }

  lemma LinkKeysAreGood()
    ensures GoodKey("DATABASE_URL") && GoodKey("INSTANCE_NAME")
  {
    var a, b := "DATABASE_URL", "INSTANCE_NAME";
    assert !IsSpace(a[0]) && !IsSpace(a[|a| - 1]) && !IsSpace(b[0]) && !IsSpace(b[|b| - 1]);
  }
}
