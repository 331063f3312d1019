/** Setting and showing the limits of a container, written `<limit>`, `<request>/<limit>` or `0`. */
module Limits {
  import opened Options
  import opened Strings
  import opened Sidecar

  /** The request and the limit that a text asks for; more than one slash leaves only the first part, as limit. */
  function Parts(reqLimit: string): (string, string) {
    var parts := Split(reqLimit, '/');
    if |parts| == 2 then (parts[0], parts[1]) else ("", parts[0])
  }

  predicate Parses(quantity: string, isQuantity: string -> bool) {
    quantity == "" || isQuantity(quantity)
  }

  function Single(t: string, quantity: string): map<string, string> {
    if quantity == "" then map[] else map[t := quantity]
  }

  /** The resources of a container after setting type t, or nothing when a quantity does not parse. */
  function MergeConstraints(held: Resources, t: string, reqLimit: string,
      isQuantity: string -> bool): Option<Resources> {
    if reqLimit == "0" then Some(Resources(held.limits - {t}, held.requests - {t}))
    else if reqLimit == "" then Some(NO_RESOURCES)
    else
      var (request, limit) := Parts(reqLimit);
      if Parses(request, isQuantity) && Parses(limit, isQuantity)
      then Some(Resources(Single(t, limit), Single(t, request))) else None
  }

  method MergeResourceConstraints(t: string, held: Resources, reqLimit: string, isQuantity: string -> bool)
    returns (merged: Resources, err: bool)
    ensures MergeConstraints(held, t, reqLimit, isQuantity) == if err then None else Some(merged)
    ensures err ==> merged == held
  {
    merged, err := held, false;
    var resourceLimit: map<string, string>, resourceRequest: map<string, string> := map[], map[];
    if reqLimit == "0" {
      resourceLimit := held.limits - {t};
      resourceRequest := held.requests - {t};
    } else if reqLimit != "" {
      var parts := Split(reqLimit, '/');
      var request, limit := "", "";
      if |parts| == 2 {
        request, limit := parts[0], parts[1];
      } else {
        limit := parts[0];
      }
      if request != "" {
        if !isQuantity(request) {
          return held, true;
        }
        resourceRequest := resourceRequest[t := request];
      }
      if limit != "" {
        if !isQuantity(limit) {
          return held, true;
        }
        resourceLimit := resourceLimit[t := limit];
      }
    }
    merged := Resources(resourceLimit, resourceRequest);
  }

  function GetRequestLimit(r: Resources, t: string): string {
    var req := if t in r.requests then r.requests[t] else "";
    var limit := if t in r.limits then r.limits[t] else "";
    req + (if req != "" && limit != "" then "/" else "") + limit
  }

  /** What the containers have of the other resource types. */
  function Others(r: Resources, t: string): Resources {
    Resources(r.limits - {t}, r.requests - {t})
  }

  /** Setting one type keeps the others only when it is unset or there are no others: setting drops them. */
  lemma MergeKeepsOthersIff(held: Resources, t: string, reqLimit: string, isQuantity: string -> bool)
    requires MergeConstraints(held, t, reqLimit, isQuantity).Some?
    ensures Others(MergeConstraints(held, t, reqLimit, isQuantity).value, t) == Others(held, t)
       <==> reqLimit == "0" || Others(held, t) == NO_RESOURCES
  {
    var merged := MergeConstraints(held, t, reqLimit, isQuantity).value;
    if reqLimit != "0" {
      assert Others(merged, t) == NO_RESOURCES;
    }
  }

  /** What is shown is what was set, exactly for texts without a slash, or with one between two quantities. */
  lemma ShownIffWellWritten(held: Resources, t: string, reqLimit: string, isQuantity: string -> bool)
    requires MergeConstraints(held, t, reqLimit, isQuantity).Some?
    ensures GetRequestLimit(MergeConstraints(held, t, reqLimit, isQuantity).value, t) == reqLimit
       <==> reqLimit != "0" && (var parts := Split(reqLimit, '/'); |parts| == 1 || (|parts| == 2 && "" !in parts))
  {
    var merged := MergeConstraints(held, t, reqLimit, isQuantity).value;
    var parts := Split(reqLimit, '/');
    JoinOfSplit(reqLimit, '/');
    PiecesLackSeparator(reqLimit, '/');
    if reqLimit == "0" {
      assert GetRequestLimit(merged, t) == "";
    } else if reqLimit == "" {
      assert GetRequestLimit(merged, t) == "";
    } else if |parts| == 1 {
      assert GetRequestLimit(merged, t) == parts[0];
    } else if |parts| == 2 {
      assert Join(parts, '/') == parts[0] + "/" + parts[1];
      assert reqLimit[|parts[0]|] == '/';
      if "" in parts {
        assert '/' !in GetRequestLimit(merged, t);
      }
    } else {
      assert GetRequestLimit(merged, t) == parts[0];
      assert Join(parts, '/') == parts[0] + "/" + Join(parts[1..], '/');
      assert |reqLimit| > |parts[0]|;
    }
  }

  // What a text asks for

  /**
   A text without a slash is a limit, and one with a slash a request and a limit; with more slashes only
   what stands before the first counts, as a limit.
   */
  predicate AsksFor(text: string, request: string, limit: string) {
    || ('/' !in text && request == "" && limit == text)
    || ('/' !in request && '/' !in limit && text == request + "/" + limit)
    || (request == "" && '/' !in limit && limit + "/" <= text && '/' in text[|limit| + 1..])
  }

  lemma PartsMeaning(text: string, request: string, limit: string)
    requires AsksFor(text, request, limit)
    ensures Parts(text) == (request, limit)
  {
    if '/' !in text && request == "" && limit == text {
      SplitPiece(text, '/');
    } else if '/' !in request && '/' !in limit && text == request + "/" + limit {
      SplitAt(request, limit, '/');
      SplitPiece(limit, '/');
    } else {
      var rest := text[|limit| + 1..];
      assert text == limit + "/" + rest;
      SplitAt(limit, rest, '/');
      TwoPieces(rest, '/');
    }
  }

  lemma {:induction false} TwoPieces(s: string, sep: char)
    requires sep in s
    ensures |Split(s, sep)| >= 2
  {
    if s[0] != sep {
      assert s == [s[0]] + s[1..];
      TwoPieces(s[1..], sep);
    }
  }

  /** Every text asks for something. */
  lemma {:induction false} AsksForSomething(text: string) returns (request: string, limit: string)
    ensures AsksFor(text, request, limit)
  {
    if '/' !in text {
      return "", text;
    }
    var i := FirstSlash(text);
    var first, rest := text[..i], text[i + 1..];
    assert text == first + "/" + rest;
    if '/' in rest {
      request, limit := "", first;
    } else {
      request, limit := first, rest;
    }
  }

  lemma {:induction false} FirstSlash(s: string) returns (i: nat)
    requires '/' in s
    ensures i < |s| && s[i] == '/' && '/' !in s[..i]
  {
    if s[0] == '/' {
      return 0;
    }
    assert s == [s[0]] + s[1..];
    i := FirstSlash(s[1..]);
    i := i + 1;
    assert s[..i] == [s[0]] + s[1..][..i - 1];
  }

  /**
   Setting a type to a text leaves exactly the request and the limit that it asks for, if both can be read,
   and is refused otherwise; 0 unsets the type and keeps the others, and no text unsets all.
   */
  lemma SettingMeaning(held: Resources, t: string, text: string, request: string, limit: string,
      isQuantity: string -> bool)
    requires AsksFor(text, request, limit)
    ensures var r := MergeConstraints(held, t, text, isQuantity);
            if text == "0" then
              r == Some(Resources(map k | k in held.limits && k != t :: held.limits[k],
                                  map k | k in held.requests && k != t :: held.requests[k]))
            else if (request == "" || isQuantity(request)) && (limit == "" || isQuantity(limit)) then
              r == Some(Resources(if limit == "" then map[] else map[t := limit],
                                  if request == "" then map[] else map[t := request]))
            else r == None
  {
    PartsMeaning(text, request, limit);
    hide Parts, AsksFor;
    assert text == "" ==> Parts(text) == ("", "") by { EmptyAsks(text, request, limit); }
    assert (map k | k in held.limits && k != t :: held.limits[k]) == held.limits - {t};
    assert (map k | k in held.requests && k != t :: held.requests[k]) == held.requests - {t};
  }

  lemma EmptyAsks(text: string, request: string, limit: string)
    requires Parts(text) == (request, limit)
    ensures text == "" ==> request == "" && limit == ""
  {
    if text == "" {
      SplitPiece("", '/');
    }
  }
}
