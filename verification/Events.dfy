/** The event record and the selection every reader applies (contracts/event/event.go). */
module Events {

  datatype Event = Event(
    id: string,
    time: int,
    typ: string,
    source: string,
    direction: string,
    summary: string,
    metadata: map<string, string>)

  datatype Filter = Filter(types: seq<string>, sources: seq<string>, direction: string, limit: int)

  /** A map index in Go yields "" for a missing key. */
  function Meta(ev: Event, key: string): string {
    if key in ev.metadata then ev.metadata[key] else ""
  }

  predicate HasSuffix(s: string, suffix: string) {
    |suffix| <= |s| && s[|s| - |suffix|..] == suffix
  }

  /** Every type, one type, or with a final ".*" every type that begins with what precedes the star. */
  predicate MatchType(pattern: string, typ: string) {
    pattern == "*" || pattern == typ || (HasSuffix(pattern, ".*") && pattern[..|pattern| - 1] <= typ)
  }

  /** A glob selects the types that begin with what it says up to its dot, and nothing else selects more than one. */
  lemma {:induction false} MatchTypeIs(pattern: string, typ: string)
    ensures MatchType(pattern, typ) <==>
              || pattern == typ || pattern == "*"
              || exists stem: string, rest: string :: pattern == stem + ".*" && typ == stem + "." + rest
  {
    if HasSuffix(pattern, ".*") && pattern[..|pattern| - 1] <= typ {
      var stem, rest := pattern[..|pattern| - 2], typ[|pattern| - 1..];
      assert pattern == stem + ".*" && typ == stem + "." + rest;
    }
    forall stem: string, rest: string | pattern == stem + ".*" && typ == stem + "." + rest
      ensures HasSuffix(pattern, ".*") && pattern[..|pattern| - 1] <= typ
    {
      assert pattern[|pattern| - 2..] == ".*";
      assert pattern[..|pattern| - 1] == stem + ".";
    }
  }

  /** What a filter selects; Limit is the caller's to apply. */
  ghost predicate Matches(f: Filter, ev: Event) {
    && (f.types == [] || exists i | 0 <= i < |f.types| :: MatchType(f.types[i], ev.typ))
    && (f.sources == [] || ev.source in f.sources)
    && (f.direction == "" || ev.direction == f.direction)
  }

  method Match(f: Filter, ev: Event) returns (ok: bool)
    ensures ok == Matches(f, ev)
  {
    if |f.types| > 0 {
      ok := false;
      for i := 0 to |f.types|
        invariant !ok
        invariant forall k :: 0 <= k < i ==> !MatchType(f.types[k], ev.typ)
      {
        if MatchType(f.types[i], ev.typ) {
          ok := true;
          break;
        }
      }
      if !ok {
        return false;
      }
    }
    if |f.sources| > 0 && ev.source !in f.sources {
      return false;
    }
    return f.direction == "" || ev.direction == f.direction;
  }
}
