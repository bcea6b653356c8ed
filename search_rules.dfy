/** The deterministic rules of the search pipeline in earth_crawler.py,
    stated as functions: the specifications that the crawler's methods are
    proved against, and the properties they have. */
module SearchRules {
  import opened Results
  import opened Seqs
  import opened Text
  import opened Osm
  import opened Kml

  /** One entry of the search line: a region name and the administrative
      level of the regions to look for inside it. */
  datatype SearchRequest = SearchRequest(name: string, adminLevel: int)

  /** The exceptions the pipeline raises and does not catch where they arise;
      each one ends the batch. */
  datatype Uncaught =
    | ValueError(text: string)      // `int()` of a level that is not an integer
    | IndexError                    // the name resolver found no candidate
    | KeyError(key: string)         // a region has no usable name tag
    | AttributeError(name: string)  // the spreadsheet writer was never created

  const DefaultAdminLevel: int := 4

  /** The administrative levels tried after the requested one. */
  const AdminLevelFallback: seq<int> := [4, 5, 6, 7, 8, 9, 10, 3]

  // ---------------------------------------------------------------------
  // Administrative-level try list
  // ---------------------------------------------------------------------

  /** `values` with every occurrence of `x` removed. */
  function Without(values: seq<int>, x: int): (r: seq<int>)
    ensures x !in r && |r| <= |values|
  {
    if values == [] then []
    else (if values[0] == x then [] else [values[0]]) + Without(values[1..], x)
  }

  /** The levels to try: the requested one first, then the others in their order. */
  function TryList(target: int, values: seq<int>): seq<int> {
    [target] + Without(values, target)
  }

  /** Removing a value distributes over concatenation, so the order of the
      remaining values is the order they had. */
  lemma {:induction false} WithoutAppend(a: seq<int>, b: seq<int>, x: int)
    ensures Without(a + b, x) == Without(a, x) + Without(b, x)
  {
    if a == [] {
      assert a + b == b;
    } else {
      var head := if a[0] == x then [] else [a[0]];
      assert (a + b)[0] == a[0] && (a + b)[1..] == a[1..] + b;
      assert Without(a + b, x) == head + Without(a[1..] + b, x);
      WithoutAppend(a[1..], b, x);
      SeqAssoc(head, Without(a[1..], x), Without(b, x));
    }
  }

  /** Removing a value from one more element of `values` appends that element
      when it is not the removed value. */
  lemma WithoutSnoc(values: seq<int>, i: nat, x: int)
    requires i < |values|
    ensures Without(values[..i + 1], x) ==
              if values[i] != x then Without(values[..i], x) + [values[i]] else Without(values[..i], x)
  {
    var v := values[i];
    assert values[..i + 1] == values[..i] + [v];
    WithoutAppend(values[..i], [v], x);
    assert [v][1..] == [];
    assert Without([v], x) == if v != x then [v] else [];
  }

  /** Removing a value that does not occur changes nothing. */
  lemma {:induction false} WithoutAbsent(values: seq<int>, x: int)
    requires x !in values
    ensures Without(values, x) == values
  {
    if values != [] {
      assert x !in values[1..];
      WithoutAbsent(values[1..], x);
      assert [values[0]] + values[1..] == values;
    }
  }

  /** Every value other than the removed one keeps its number of occurrences. */
  lemma {:induction false} WithoutCounts(values: seq<int>, x: int, y: int)
    requires y != x
    ensures multiset(Without(values, x))[y] == multiset(values)[y]
  {
    if values != [] {
      WithoutCounts(values[1..], x, y);
      assert values == [values[0]] + values[1..];
    }
  }

  /** The try list starts with the target, holds it exactly once, and holds
      every other value as often as `values` does. */
  lemma TryListShape(target: int, values: seq<int>)
    ensures TryList(target, values)[0] == target
    ensures multiset(TryList(target, values))[target] == 1
    ensures forall y :: y != target ==> multiset(TryList(target, values))[y] == multiset(values)[y]
    ensures TryList(target, values)[1..] == Without(values, target)
  {
    var w := Without(values, target);
    assert multiset(w)[target] == 0;
    forall y | y != target ensures multiset(TryList(target, values))[y] == multiset(values)[y] {
      WithoutCounts(values, target, y);
    }
  }

  predicate Distinct(s: seq<int>) {
    forall i, j :: 0 <= i < j < |s| ==> s[i] != s[j]
  }

  lemma {:induction false} WithoutSubset(values: seq<int>, x: int)
    ensures forall y :: y in Without(values, x) ==> y in values
  {
    if values != [] {
      WithoutSubset(values[1..], x);
    }
  }

  lemma {:induction false} WithoutDistinct(values: seq<int>, x: int)
    requires Distinct(values)
    ensures Distinct(Without(values, x))
  {
    if values != [] {
      WithoutDistinct(values[1..], x);
      WithoutSubset(values[1..], x);
      var w := Without(values, x);
      var rest := Without(values[1..], x);
      if values[0] != x {
        assert values[0] !in values[1..] by {
          forall k | 0 <= k < |values[1..]| ensures values[1..][k] != values[0] {
            assert values[1..][k] == values[k + 1];
          }
        }
        assert w == [values[0]] + rest;
      }
    }
  }

  /** A list of distinct levels gives a try list of distinct levels: no level is tried twice. */
  lemma TryListDistinct(target: int, values: seq<int>)
    requires Distinct(values)
    ensures Distinct(TryList(target, values))
  {
    WithoutDistinct(values, target);
  }

  /** With the fixed fallback list, no level is ever tried twice, whatever level is requested. */
  lemma FallbackTryListDistinct(target: int)
    ensures Distinct(TryList(target, AdminLevelFallback))
  {
    TryListDistinct(target, AdminLevelFallback);
  }

  /** A target in third place moves to the front; the others keep their order. */
  lemma TryListThirdFirst(a: int, b: int, target: int, tail: seq<int>)
    requires a != target && b != target && target !in tail
    ensures TryList(target, [a] + ([b] + ([target] + tail))) == [target] + ([a] + ([b] + tail))
  {
    WithoutAbsent(tail, target);
    WithoutCons(target, tail, target);
    assert [] + tail == tail;
    WithoutCons(b, [target] + tail, target);
    WithoutCons(a, [b] + ([target] + tail), target);
  }

  /** The fallback list is `[4, 5, 6]` followed by `[7, 8, 9, 10, 3]`. */
  lemma FallbackSplit()
    ensures AdminLevelFallback == [4] + ([5] + ([6] + [7, 8, 9, 10, 3]))
  {
  }

  /** `(6, [4,5,6,7,8,9,10,3])` gives `[6,4,5,7,8,9,10,3]`; the list is
      passed in parts, as `FallbackSplit` writes the fallback list. */
  lemma TryListExample(levels: seq<int>)
    requires levels == [4] + ([5] + ([6] + [7, 8, 9, 10, 3]))
    ensures TryList(6, levels) == [6, 4, 5, 7, 8, 9, 10, 3]
  {
    TryListThirdFirst(4, 5, 6, [7, 8, 9, 10, 3]);
  }

  /** One step of `Without`, written on a sequence built by concatenation. */
  lemma WithoutCons(v: int, rest: seq<int>, x: int)
    ensures Without([v] + rest, x) == (if v == x then [] else [v]) + Without(rest, x)
  {
    assert ([v] + rest)[1..] == rest;
  }

  // ---------------------------------------------------------------------
  // Admin-level fallback
  // ---------------------------------------------------------------------

  /** The position in `levels` of the first admin level whose boundary query
      inside `areaId` answers with a relation list; `|levels|` when none does. */
  function FirstAnswering(areaId: string, levels: seq<int>,
                          boundaries: (string, int) -> Option<seq<Relation>>): (k: nat)
    ensures k <= |levels|
    ensures k < |levels| ==> boundaries(areaId, levels[k]).Some?
    ensures forall j :: 0 <= j < k ==> boundaries(areaId, levels[j]).None?
    decreases |levels|
  {
    if levels == [] || boundaries(areaId, levels[0]).Some? then 0
    else 1 + FirstAnswering(areaId, levels[1..], boundaries)
  }

  /** The position where every earlier level fails and the level itself answers (or the end) is the first answering one. */
  lemma FirstAnsweringAt(areaId: string, levels: seq<int>, boundaries: (string, int) -> Option<seq<Relation>>, i: nat)
    requires i <= |levels|
    requires forall j :: 0 <= j < i ==> boundaries(areaId, levels[j]).None?
    requires i < |levels| ==> boundaries(areaId, levels[i]).Some?
    ensures FirstAnswering(areaId, levels, boundaries) == i
  {
  }

  /** The relations of the first level that answers, or nothing when no level does. */
  function OverpassAnswer(areaId: string, levels: seq<int>,
                          boundaries: (string, int) -> Option<seq<Relation>>): Option<seq<Relation>> {
    var k := FirstAnswering(areaId, levels, boundaries);
    if k < |levels| then boundaries(areaId, levels[k]) else None
  }

  /** The answer comes from the earliest answering level: it is nothing
      exactly when no level answers, and otherwise it is the relation list of
      a level before which no level answers. */
  lemma OverpassAnswerIsFirst(areaId: string, levels: seq<int>,
                              boundaries: (string, int) -> Option<seq<Relation>>)
    ensures OverpassAnswer(areaId, levels, boundaries).None?
        <==> forall j :: 0 <= j < |levels| ==> boundaries(areaId, levels[j]).None?
    ensures OverpassAnswer(areaId, levels, boundaries).Some? ==>
      exists k :: 0 <= k < |levels| && OverpassAnswer(areaId, levels, boundaries) == boundaries(areaId, levels[k])
        && forall j :: 0 <= j < k ==> boundaries(areaId, levels[j]).None?
  {
    var k := FirstAnswering(areaId, levels, boundaries);
    if k < |levels| {
      assert boundaries(areaId, levels[k]).Some?;
    }
  }

  /** The requested level is asked first: when it answers, its relations are used. */
  lemma RequestedLevelFirst(areaId: string, target: int,
                            boundaries: (string, int) -> Option<seq<Relation>>)
    requires boundaries(areaId, target).Some?
    ensures OverpassAnswer(areaId, TryList(target, AdminLevelFallback), boundaries) == boundaries(areaId, target)
  {
    assert TryList(target, AdminLevelFallback)[0] == target;
  }

  /** A level that no query answers for is never tried twice: the levels tried
      are distinct, so the loop asks at most once per level. */
  lemma TriedLevelsDistinct(areaId: string, target: int,
                            boundaries: (string, int) -> Option<seq<Relation>>)
    ensures var levels := TryList(target, AdminLevelFallback);
      var k := FirstAnswering(areaId, levels, boundaries);
      Distinct(levels[..if k < |levels| then k + 1 else k])
  {
    var levels := TryList(target, AdminLevelFallback);
    FallbackTryListDistinct(target);
    var k := FirstAnswering(areaId, levels, boundaries);
    var n := if k < |levels| then k + 1 else k;
    forall i, j | 0 <= i < j < n ensures levels[..n][i] != levels[..n][j] {
      assert levels[..n][i] == levels[i] && levels[..n][j] == levels[j];
    }
  }

  // ---------------------------------------------------------------------
  // Search-line parsing
  // ---------------------------------------------------------------------

  /** One stripped, non-blank segment of the search line. Without `=`, the
      segment is the name and the level is 4. With `=`, the name is the text
      before the first `=` and the level is `int()` of the text between the
      first and the second `=`; later text is ignored. */
  function ParseSegment(seg: string): (r: Result<SearchRequest, Uncaught>)
    ensures '=' !in seg ==> r == Success(SearchRequest(seg, DefaultAdminLevel))
    ensures '=' in seg ==>
      var k := FirstIndex(seg, '=');
      var rest := seg[k + 1..];
      var levelText := rest[..FirstIndex(rest, '=')];
      && (r.Success? <==> ParseInt(levelText).Some?)
      && (r.Success? ==> r.value == SearchRequest(seg[..k], ParseInt(levelText).value))
      && (r.Failure? ==> r.error == ValueError(levelText))
  {
    if '=' in seg then
      SplitAtFirst(seg, '=');
      var parts := Split(seg, '=');
      SplitAtFirst(seg[FirstIndex(seg, '=') + 1..], '=');
      match ParseInt(parts[1])
      case Some(level) => Success(SearchRequest(parts[0], level))
      case None => Failure(ValueError(parts[1]))
    else Success(SearchRequest(seg, DefaultAdminLevel))
  }

  /** The segments that are not blank, stripped, in their order. */
  function NonBlank(segs: seq<string>): (r: seq<string>)
    ensures |r| <= |segs|
    ensures forall s :: s in r ==> s != "" && Strip(s) == s
  {
    if segs == [] then []
    else
      var s := Strip(segs[0]);
      if s == "" then NonBlank(segs[1..])
      else
        StripKeeps(s);
        [s] + NonBlank(segs[1..])
  }

  /** `acc` followed by the result, if there is one. */
  function After(acc: seq<SearchRequest>, r: Result<seq<SearchRequest>, Uncaught>): Result<seq<SearchRequest>, Uncaught> {
    match r
    case Success(rest) => Success(acc + rest)
    case Failure(e) => Failure(e)
  }

  /** Parsing the segments left to right; the first segment that fails ends it. */
  function ParseSegments(segs: seq<string>): Result<seq<SearchRequest>, Uncaught> {
    if segs == [] then Success([])
    else
      var s := Strip(segs[0]);
      if s == "" then ParseSegments(segs[1..])
      else match ParseSegment(s)
        case Failure(e) => Failure(e)
        case Success(req) => After([req], ParseSegments(segs[1..]))
  }

  /** `search_line_proccessing`: the search line split on `;`, parsed segment by segment. */
  function ParseSearchLine(line: string): Result<seq<SearchRequest>, Uncaught> {
    ParseSegments(Split(line, ';'))
  }

  /** Parsing succeeds exactly when every non-blank segment parses; it then
      gives one request per non-blank segment, in order. */
  lemma {:induction false} ParseSegmentsCharacterised(segs: seq<string>)
    ensures var ns := NonBlank(segs); var r := ParseSegments(segs);
      (r.Success? <==> AllParse(ns)) && (r.Success? ==> ParsedAs(ns, r.value))
  {
    if segs != [] {
      var tail := segs[1..];
      ParseSegmentsCharacterised(tail);
      var s := Strip(segs[0]);
      ParseSegmentsStep(segs);
      if s != "" {
        var nt := NonBlank(tail);
        var ns := NonBlank(segs);
        var rt := ParseSegments(tail);
        match ParseSegment(s) {
          case Failure(e) =>
            assert !AllParse(ns) by { assert ns[0] == s; }
          case Success(req) =>
            AllParseCons(s, nt);
            if rt.Success? {
              ParsedAsCons(s, nt, req, rt.value);
            }
        }
      }
    }
  }

  /** A parsing segment in front does not change whether all parse. */
  lemma AllParseCons(s: string, nt: seq<string>)
    requires ParseSegment(s).Success?
    ensures AllParse([s] + nt) <==> AllParse(nt)
  {
    var ns := [s] + nt;
    if AllParse(nt) {
      forall k | 0 <= k < |ns| ensures ParseSegment(ns[k]).Success? {
        if k > 0 { assert ns[k] == nt[k - 1]; }
      }
    }
    if AllParse(ns) {
      forall k | 0 <= k < |nt| ensures ParseSegment(nt[k]).Success? {
        assert nt[k] == ns[k + 1];
      }
    }
  }

  /** A parsing segment in front puts its request in front. */
  lemma ParsedAsCons(s: string, nt: seq<string>, req: SearchRequest, reqs: seq<SearchRequest>)
    requires ParseSegment(s) == Success(req) && ParsedAs(nt, reqs)
    ensures ParsedAs([s] + nt, [req] + reqs)
  {
    var ns, rs := [s] + nt, [req] + reqs;
    forall k | 0 <= k < |ns| ensures ParseSegment(ns[k]) == Success(rs[k]) {
      if k > 0 {
        assert ns[k] == nt[k - 1];
        assert rs[k] == reqs[k - 1];
      }
    }
  }

  /** One step of the left-to-right parse. */
  lemma ParseSegmentsStep(segs: seq<string>)
    requires segs != []
    ensures var s := Strip(segs[0]);
      && (s == "" ==> ParseSegments(segs) == ParseSegments(segs[1..]) && NonBlank(segs) == NonBlank(segs[1..]))
      && (s != "" ==> NonBlank(segs) == [s] + NonBlank(segs[1..]))
      && (s != "" && ParseSegment(s).Failure? ==> ParseSegments(segs) == Failure(ParseSegment(s).error))
      && (s != "" && ParseSegment(s).Success? ==>
            ParseSegments(segs) == After([ParseSegment(s).value], ParseSegments(segs[1..])))
  {
  }

  /** Every segment parses. */
  predicate AllParse(ns: seq<string>) {
    forall k :: 0 <= k < |ns| ==> ParseSegment(ns[k]).Success?
  }

  /** `reqs` are the parses of `ns`, one for one and in order. */
  predicate ParsedAs(ns: seq<string>, reqs: seq<SearchRequest>) {
    |reqs| == |ns| && forall k :: 0 <= k < |ns| ==> ParseSegment(ns[k]) == Success(reqs[k])
  }

  /** The search line gives one request per non-blank segment, in input order,
      and so never more requests than segments. */
  lemma ParseSearchLineCharacterised(line: string)
    ensures var ns := NonBlank(Split(line, ';')); var r := ParseSearchLine(line);
      && |ns| <= |Split(line, ';')|
      && (forall s :: s in ns ==> ';' !in s)
      && (r.Success? <==> AllParse(ns))
      && (r.Success? ==> ParsedAs(ns, r.value))
  {
    ParseSegmentsCharacterised(Split(line, ';'));
    NonBlankFrom(Split(line, ';'), ';');
  }

  lemma {:induction false} NonBlankFrom(segs: seq<string>, c: char)
    requires forall s :: s in segs ==> c !in s
    ensures forall s :: s in NonBlank(segs) ==> c !in s
  {
    if segs != [] {
      assert segs[0] in segs;
      assert forall s :: s in segs[1..] ==> s in segs;
      NonBlankFrom(segs[1..], c);
      var s := Strip(segs[0]);
      assert forall k :: 0 <= k < |s| ==> s[k] == segs[0][LeadingSpaces(segs[0]) + k];
    }
  }

  /** A name that the search line can carry unchanged: no `;` or `=`, and no
      leading whitespace (the name is not stripped again after the split on `=`). */
  predicate IsLineName(name: string) {
    ';' !in name && '=' !in name && (name != "" ==> !IsSpace(name[0]))
  }

  function RenderRequest(r: SearchRequest): string {
    r.name + "=" + IntToString(r.adminLevel)
  }

  /** The search line `name1=level1;name2=level2;...` for a list of requests. */
  function RenderLine(reqs: seq<SearchRequest>): string {
    Join(Entries(reqs), ';')
  }

  function Entries(reqs: seq<SearchRequest>): (es: seq<string>)
    ensures |es| == |reqs|
  {
    if reqs == [] then [] else [RenderRequest(reqs[0])] + Entries(reqs[1..])
  }

  lemma IntToStringNoSeparators(i: int)
    ensures ';' !in IntToString(i) && '=' !in IntToString(i)
  {
    var s := IntToString(i);
    var d := NatToString(if i < 0 then -i else i);
    assert forall k :: 0 <= k < |d| ==> IsDigit(d[k]);
    if i < 0 {
      assert forall k :: 1 <= k < |s| ==> s[k] == d[k - 1];
    }
  }

  /** The first `c` of `a + [c] + b`, when `a` holds none, is the one after `a`. */
  lemma {:induction false} FirstIndexAfter(a: string, b: string, c: char)
    requires c !in a
    ensures FirstIndex(a + [c] + b, c) == |a|
  {
    if a != [] {
      assert (a + [c] + b)[1..] == a[1..] + [c] + b;
      assert c !in a[1..];
      FirstIndexAfter(a[1..], b, c);
    }
  }

  /** A rendered request holds no `;` and neither starts nor ends with whitespace. */
  lemma RenderRequestShape(r: SearchRequest)
    requires IsLineName(r.name)
    ensures ';' !in RenderRequest(r) && RenderRequest(r) != ""
    ensures !IsSpace(RenderRequest(r)[0]) && !IsSpace(RenderRequest(r)[|RenderRequest(r)| - 1])
    ensures Strip(RenderRequest(r)) == RenderRequest(r)
  {
    var e := RenderRequest(r);
    var level := IntToString(r.adminLevel);
    IntToStringNoSeparators(r.adminLevel);
    assert e[|e| - 1] == level[|level| - 1];
    assert e[0] == if r.name == "" then '=' else r.name[0];
    StripKeeps(e);
  }

  lemma ParseRenderedRequest(r: SearchRequest)
    requires IsLineName(r.name)
    ensures ';' !in RenderRequest(r)
    ensures Strip(RenderRequest(r)) == RenderRequest(r) && RenderRequest(r) != ""
    ensures !IsSpace(RenderRequest(r)[0]) && !IsSpace(RenderRequest(r)[|RenderRequest(r)| - 1])
    ensures ParseSegment(RenderRequest(r)) == Success(r)
  {
    RenderRequestShape(r);
    var e := RenderRequest(r);
    var level := IntToString(r.adminLevel);
    assert '=' in e by { assert e[|r.name|] == '='; }
    var k := FirstIndex(e, '=');
    var rest := e[k + 1..];
    assert k == |r.name| && rest == level by {
      FirstIndexAfter(r.name, level, '=');
    }
    assert rest[..FirstIndex(rest, '=')] == level by {
      IntToStringNoSeparators(r.adminLevel);
      assert FirstIndex(rest, '=') == |rest|;
    }
    assert e[..k] == r.name;
    ParseIntToString(r.adminLevel);
  }

  /** Writing requests out as a search line and parsing it gives them back. */
  lemma {:induction false} ParseRenderRoundTrip(reqs: seq<SearchRequest>)
    requires forall r :: r in reqs ==> IsLineName(r.name)
    ensures ParseSearchLine(RenderLine(reqs)) == Success(reqs)
  {
    if reqs == [] {
      assert RenderLine(reqs) == "";
      assert Split("", ';') == [""];
      assert Strip("") == "";
    } else {
      ParseEntries(reqs);
      EntriesWithoutSemicolon(reqs);
      SplitJoin(Entries(reqs), ';');
    }
  }

  /** The entries of requests with line names hold no `;`. */
  lemma {:induction false} EntriesWithoutSemicolon(reqs: seq<SearchRequest>)
    requires forall r :: r in reqs ==> IsLineName(r.name)
    ensures forall p :: p in Entries(reqs) ==> ';' !in p
  {
    if reqs != [] {
      assert reqs[0] in reqs;
      assert forall q :: q in reqs[1..] ==> q in reqs;
      ParseRenderedRequest(reqs[0]);
      EntriesWithoutSemicolon(reqs[1..]);
    }
  }

  lemma {:induction false} ParseEntries(reqs: seq<SearchRequest>)
    requires forall r :: r in reqs ==> IsLineName(r.name)
    ensures ParseSegments(Entries(reqs)) == Success(reqs)
  {
    if reqs != [] {
      assert reqs[0] in reqs;
      assert forall q :: q in reqs[1..] ==> q in reqs;
      ParseEntries(reqs[1..]);
      ParseEntriesCons(reqs);
    }
  }

  /** A request in front of requests that parse back also parses back. */
  lemma ParseEntriesCons(reqs: seq<SearchRequest>)
    requires reqs != [] && IsLineName(reqs[0].name)
    requires ParseSegments(Entries(reqs[1..])) == Success(reqs[1..])
    ensures ParseSegments(Entries(reqs)) == Success(reqs)
  {
    EntriesHead(reqs);
    ParseRenderedFront(Entries(reqs), reqs);
  }

  /** Segments whose first is the first request's entry, and whose others parse
      to the other requests, parse to all the requests. */
  lemma ParseRenderedFront(es: seq<string>, reqs: seq<SearchRequest>)
    requires es != [] && reqs != [] && es[0] == RenderRequest(reqs[0]) && IsLineName(reqs[0].name)
    requires ParseSegments(es[1..]) == Success(reqs[1..])
    ensures ParseSegments(es) == Success(reqs)
  {
    ParseRenderedHead(es, reqs[0]);
    assert [reqs[0]] + reqs[1..] == reqs;
  }

  /** The entries of requests are the first request's entry before the rest's. */
  lemma EntriesHead(reqs: seq<SearchRequest>)
    requires reqs != []
    ensures Entries(reqs)[0] == RenderRequest(reqs[0]) && Entries(reqs)[1..] == Entries(reqs[1..])
  {
    var es := [RenderRequest(reqs[0])] + Entries(reqs[1..]);
    assert Entries(reqs) == es;
    assert es[1..] == Entries(reqs[1..]);
  }

  /** Segments that start with a rendered request parse it first. */
  lemma ParseRenderedHead(es: seq<string>, r: SearchRequest)
    requires es != [] && es[0] == RenderRequest(r) && IsLineName(r.name)
    ensures ParseSegments(es) == After([r], ParseSegments(es[1..]))
  {
    ParseRenderedRequest(r);
    ParseSegmentsCons(es, r);
  }

  /** A first segment that is already stripped and parses puts its request in front. */
  lemma ParseSegmentsCons(es: seq<string>, r: SearchRequest)
    requires es != [] && es[0] != "" && Strip(es[0]) == es[0] && ParseSegment(es[0]) == Success(r)
    ensures ParseSegments(es) == After([r], ParseSegments(es[1..]))
  {
  }

  /** `"USA=5; China=6; Russia=4"` gives `[("USA",5), ("China",6), ("Russia",4)]`. */
  lemma ParseSearchLineExample(line: string)
    requires line == "USA=5; China=6; Russia=4"
    ensures ParseSearchLine(line) ==
              Success([SearchRequest("USA", 5), SearchRequest("China", 6), SearchRequest("Russia", 4)])
  {
    var usa, china, russia := SearchRequest("USA", 5), SearchRequest("China", 6), SearchRequest("Russia", 4);
    ExampleLineRendered(line, usa, china, russia);
    ExampleNamesFit(usa.name, china.name, russia.name);
    ParseThreeSpaced(usa, china, russia);
  }

  /** The example names can be written in a search line. */
  lemma ExampleNamesFit(a: string, b: string, c: string)
    requires a == "USA" && b == "China" && c == "Russia"
    ensures IsLineName(a) && IsLineName(b) && IsLineName(c)
  {
  }

  /** The example line is the three example requests written with a blank after each `;`. */
  lemma ExampleLineRendered(line: string, a: SearchRequest, b: SearchRequest, c: SearchRequest)
    requires line == "USA=5; China=6; Russia=4"
    requires a == SearchRequest("USA", 5) && b == SearchRequest("China", 6) && c == SearchRequest("Russia", 4)
    ensures line == RenderRequest(a) + "; " + RenderRequest(b) + "; " + RenderRequest(c)
  {
    assert IntToString(5) == "5" && IntToString(6) == "6" && IntToString(4) == "4";
    assert RenderRequest(a) == "USA=5";
    assert RenderRequest(b) == "China=6";
    assert RenderRequest(c) == "Russia=4";
    assert "USA=5" + "; " + "China=6" == "USA=5; China=6";
    assert "USA=5; China=6" + "; " + "Russia=4" == line;
  }

  /** Three requests written with a blank after each `;` parse back. */
  lemma ParseThreeSpaced(a: SearchRequest, b: SearchRequest, c: SearchRequest)
    requires IsLineName(a.name) && IsLineName(b.name) && IsLineName(c.name)
    ensures ParseSearchLine(RenderRequest(a) + "; " + RenderRequest(b) + "; " + RenderRequest(c)) == Success([a, b, c])
  {
    var e1, e2, e3 := RenderRequest(a), RenderRequest(b), RenderRequest(c);
    ParseRenderedRequest(a);
    ParseRenderedRequest(b);
    ParseRenderedRequest(c);
    SplitThree(e1, e2, e3);
    ParseThreeSegments(a, b, c);
  }

  lemma SplitThree(e1: string, e2: string, e3: string)
    requires ';' !in e1 && ';' !in e2 && ';' !in e3
    ensures Split(e1 + "; " + e2 + "; " + e3, ';') == [e1, " " + e2, " " + e3]
  {
    var segs := [e1, " " + e2, " " + e3];
    assert Join(segs[2..], ';') == " " + e3;
    assert Join(segs[1..], ';') == " " + e2 + [';'] + " " + e3;
    assert Join(segs, ';') == e1 + "; " + e2 + "; " + e3;
    assert ';' !in " " + e2 && ';' !in " " + e3;
    SplitJoin(segs, ';');
  }

  lemma ParseThreeSegments(a: SearchRequest, b: SearchRequest, c: SearchRequest)
    requires IsLineName(a.name) && IsLineName(b.name) && IsLineName(c.name)
    ensures ParseSegments([RenderRequest(a), " " + RenderRequest(b), " " + RenderRequest(c)]) == Success([a, b, c])
  {
    ParsePaddedSegment(a, "");
    ParsePaddedSegment(b, " ");
    ParsePaddedSegment(c, " ");
    assert "" + RenderRequest(a) == RenderRequest(a);
    ParseThreeStripped(RenderRequest(a), " " + RenderRequest(b), " " + RenderRequest(c), a, b, c);
  }

  lemma ParseThreeStripped(x1: string, x2: string, x3: string, a: SearchRequest, b: SearchRequest, c: SearchRequest)
    requires Strip(x1) != "" && ParseSegment(Strip(x1)) == Success(a)
    requires Strip(x2) != "" && ParseSegment(Strip(x2)) == Success(b)
    requires Strip(x3) != "" && ParseSegment(Strip(x3)) == Success(c)
    ensures ParseSegments([x1, x2, x3]) == Success([a, b, c])
  {
    var xs, ys, zs := [x1, x2, x3], [x2, x3], [x3];
    assert xs[0] == x1 && xs[1..] == ys;
    assert ys[0] == x2 && ys[1..] == zs;
    assert zs[0] == x3 && zs[1..] == [];
    ParseSegmentsHead(zs, c, []);
    assert [c] + [] == [c];
    ParseSegmentsHead(ys, b, [c]);
    assert [b] + [c] == [b, c];
    ParseSegmentsHead(xs, a, [b, c]);
    assert [a] + [b, c] == [a, b, c];
  }

  /** A rendered request, with or without one blank in front, strips to itself and parses back. */
  lemma ParsePaddedSegment(r: SearchRequest, pad: string)
    requires IsLineName(r.name) && (pad == "" || pad == " ")
    ensures Strip(pad + RenderRequest(r)) == RenderRequest(r) != ""
    ensures ParseSegment(RenderRequest(r)) == Success(r)
  {
    ParseRenderedRequest(r);
    StripPadded(RenderRequest(r), pad);
  }

  /** At most one blank in front of a string with non-blank ends is stripped away. */
  lemma StripPadded(t: string, pad: string)
    requires t != "" && !IsSpace(t[0]) && !IsSpace(t[|t| - 1]) && (pad == "" || pad == " ")
    ensures Strip(pad + t) == t
  {
    if pad == " " {
      StripAfterSpace(t);
    } else {
      assert pad + t == t;
      StripKeeps(t);
    }
  }

  /** A segment in front that parses puts its request in front of the rest's. */
  lemma ParseSegmentsHead(xs: seq<string>, r: SearchRequest, tail: seq<SearchRequest>)
    requires xs != [] && Strip(xs[0]) != "" && ParseSegment(Strip(xs[0])) == Success(r)
    requires ParseSegments(xs[1..]) == Success(tail)
    ensures ParseSegments(xs) == Success([r] + tail)
  {
  }

  /** A single blank in front of a string with non-blank ends is stripped away. */
  lemma StripAfterSpace(t: string)
    requires t != "" && !IsSpace(t[0]) && !IsSpace(t[|t| - 1])
    ensures Strip(" " + t) == t
  {
    assert (" " + t)[1..] == t;
    assert LeadingSpaces(" " + t) == 1;
    StripKeeps(t);
  }

  // ---------------------------------------------------------------------
  // Name selection from tags
  // ---------------------------------------------------------------------

  /** The key consulted after the preferred language, spelt as in
      earth_crawler.py:110-111. */
  const EnglishFallbackKey: string := "neme:en"

  /** `choose_name_from_tag`: the `name:<language>` tag if there is one, else
      the `neme:en` tag, else the `name` tag; a KeyError if none is present. */
  function ChooseName(tags: Tags, language: string): (r: Result<string, Uncaught>)
    ensures r.Success? ==> r.value in tags.Values
    ensures r.Success? <==> ("name:" + language in tags || EnglishFallbackKey in tags || "name" in tags)
    ensures r.Failure? ==> r.error == KeyError("name")
  {
    var languageKey := "name:" + language;
    if languageKey in tags then Success(tags[languageKey])
    else if EnglishFallbackKey in tags then Success(tags[EnglishFallbackKey])
    else if "name" in tags then Success(tags["name"])
    else Failure(KeyError("name"))
  }

  /** The preferred-language tag wins over everything else: whatever other
      tags are present, it decides the name. */
  lemma ChooseNamePreferredWins(tags: Tags, other: Tags, language: string)
    requires "name:" + language in tags
    ensures ChooseName(tags + other - {"name:" + language} + map["name:" + language := tags["name:" + language]], language)
            == Success(tags["name:" + language])
  {
  }

  /** Because of the spelling of the fallback key, an English `name:en` tag
      is never consulted unless English is the preferred language: removing
      it does not change the chosen name. */
  lemma EnglishTagIgnored(tags: Tags, language: string)
    requires language != "en"
    ensures ChooseName(tags - {"name:en"}, language) == ChooseName(tags, language)
  {
    assert ("name:" + language)[5..] == language;
    assert EnglishFallbackKey != "name:en" by { assert EnglishFallbackKey[1] != "name:en"[1]; }
  }

  /** The cases of tests/test_earth_crawler.py:34-43. */
  lemma ChooseNameExamples()
    ensures var tags := map["name" := "Int_name", "name:en" := "En_name", "name:de" := "De_name", "name:ru" := "Ru_name"];
      && ChooseName(tags, "de") == Success("De_name")
      && ChooseName(tags, "") == Success("Int_name")
  {
    var tags := map["name" := "Int_name", "name:en" := "En_name", "name:de" := "De_name", "name:ru" := "Ru_name"];
    assert "name:" + "de" == "name:de";
    assert "name:" + "" == "name:";
    assert "name:" !in tags by {
      assert "name:" != "name" && "name:" != "name:en" && "name:" != "name:de" && "name:" != "name:ru";
    }
    assert EnglishFallbackKey !in tags by {
      assert EnglishFallbackKey[1] == 'e';
    }
  }

  /** `region.tag(key)` put into a string: the tag's value, or the text `None`
      when the tag is absent. */
  function TagOrNone(tags: Tags, key: string): (r: string)
    ensures key in tags ==> r == tags[key]
    ensures key !in tags ==> r == "None"
  {
    if key in tags then tags[key] else "None"
  }

  // ---------------------------------------------------------------------
  // Area id and KML file name
  // ---------------------------------------------------------------------

  /** The area id handed to the spatial query (earth_crawler.py:315): the first
      letter of the first candidate's type followed by its number. */
  function AreaId(candidates: seq<Candidate>): (r: Result<string, Uncaught>)
    ensures r.Failure? <==> candidates == [] || candidates[0].osmType == ""
    ensures r.Failure? ==> r.error == IndexError
  {
    if candidates == [] || candidates[0].osmType == "" then Failure(IndexError)
    else Success([candidates[0].osmType[0]] + IntToString(candidates[0].osmId))
  }

  /** An area id gives back the type letter and the number of the candidate it was made from. */
  lemma AreaIdDecodes(candidates: seq<Candidate>)
    requires AreaId(candidates).Success?
    ensures var id := AreaId(candidates).value;
      && |id| >= 2
      && id[0] == candidates[0].osmType[0]
      && ParseInt(id[1..]) == Some(candidates[0].osmId)
  {
    var id := AreaId(candidates).value;
    assert id[1..] == IntToString(candidates[0].osmId);
    ParseIntToString(candidates[0].osmId);
  }

  const LinesSuffix: string := " (lines)"
  const PolygonsSuffix: string := " (polygons)"

  /** The KML file name (earth_crawler.py:148-153): the request name and the
      shape mode in brackets. */
  function KmlFileName(objName: string, polygonsToLines: bool): (r: string)
    ensures |objName| <= |r|
    ensures r[..|objName|] == objName
    ensures r[|objName|..] == if polygonsToLines then LinesSuffix else PolygonsSuffix
  {
    objName + (if polygonsToLines then LinesSuffix else PolygonsSuffix)
  }

  /** Different requests or modes never share a file name. */
  lemma KmlFileNameInjective(n1: string, m1: bool, n2: string, m2: bool)
    requires KmlFileName(n1, m1) == KmlFileName(n2, m2)
    ensures n1 == n2 && m1 == m2
  {
    var f := KmlFileName(n1, m1);
    var a := if m1 then LinesSuffix else PolygonsSuffix;
    var b := if m2 then LinesSuffix else PolygonsSuffix;
    assert f == n1 + a && f == n2 + b;
    assert f[|f| - 8..] == a[|a| - 8..];
    assert f[|f| - 8..] == b[|b| - 8..];
    assert LinesSuffix[|LinesSuffix| - 7] != PolygonsSuffix[|PolygonsSuffix| - 7];
    assert a == b;
    assert n1 == f[..|f| - |a|] == n2;
  }

  // ---------------------------------------------------------------------
  // Address records of place points
  // ---------------------------------------------------------------------

  const AdminKeys: seq<string> := ["county", "state", "region", "country"]

  /** The address keys looked at, in order: the place types, then the
      administrative keys (earth_crawler.py:226-227). */
  function KeysList(choice: seq<string>): seq<string> {
    choice + AdminKeys
  }

  /** A spreadsheet row: the address fields found, and the point's position. */
  datatype AddressRecord = AddressRecord(fields: map<string, string>, lon: real, lat: real)

  /** The fields collected after looking at `keys` in order: a key present in
      the address that is a place type sets `location`, any other present key
      is copied under its own name, an absent key is skipped. */
  function AddressFields(address: Tags, choice: seq<string>, keys: seq<string>): map<string, string> {
    if keys == [] then map[]
    else
      var fields := AddressFields(address, choice, keys[..|keys| - 1]);
      var x := keys[|keys| - 1];
      if x !in address then fields
      else if x in choice then fields["location" := address[x]]
      else fields[x := address[x]]
  }

  /** `location` is set exactly when some looked-at place-type key is in the
      address, and then holds the value of the last such key. */
  lemma {:induction false} LocationIsLastPlaceKey(address: Tags, choice: seq<string>, keys: seq<string>)
    requires "location" !in keys || "location" in choice
    ensures var f := AddressFields(address, choice, keys);
      && ("location" in f <==> exists k :: 0 <= k < |keys| && keys[k] in address && keys[k] in choice)
      && ("location" in f ==> exists k :: && 0 <= k < |keys| && keys[k] in address && keys[k] in choice
                                           && f["location"] == address[keys[k]]
                                           && forall j :: k < j < |keys| ==> keys[j] !in address || keys[j] !in choice)
  {
    if keys != [] {
      var n := |keys| - 1;
      var init := keys[..n];
      assert forall k :: 0 <= k < n ==> init[k] == keys[k];
      LocationIsLastPlaceKey(address, choice, init);
      var f := AddressFields(address, choice, keys);
      var x := keys[n];
      if x in address && x in choice {
        assert f["location"] == address[keys[n]];
      } else {
        assert "location" in f <==> "location" in AddressFields(address, choice, init);
      }
    }
  }

  /** A looked-at key that is not a place type is copied exactly when the
      address has it; nothing but `location` and such keys is ever set. */
  lemma {:induction false} OtherKeysCopied(address: Tags, choice: seq<string>, keys: seq<string>, y: string)
    requires y !in choice && y != "location"
    ensures var f := AddressFields(address, choice, keys);
      && (y in f <==> y in keys && y in address)
      && (y in f ==> f[y] == address[y])
  {
    if keys != [] {
      var n := |keys| - 1;
      OtherKeysCopied(address, choice, keys[..n], y);
      assert keys == keys[..n] + [keys[n]];
      assert y in keys <==> y in keys[..n] || y == keys[n];
    }
  }

  lemma {:induction false} OnlyKnownFields(address: Tags, choice: seq<string>, keys: seq<string>)
    ensures forall y :: y in AddressFields(address, choice, keys) ==>
              y == "location" || (y in keys && y !in choice)
  {
    if keys != [] {
      var n := |keys| - 1;
      OnlyKnownFields(address, choice, keys[..n]);
      assert keys == keys[..n] + [keys[n]];
    }
  }

  /** The record of one point: the fields of its address and its position. */
  function BuildRecord(address: Tags, choice: seq<string>, position: LonLat): AddressRecord {
    AddressRecord(AddressFields(address, choice, KeysList(choice)), position.lon, position.lat)
  }

  /** The text by which a lookup names an element: `<type>/<id>`. */
  function ElementPath(e: ElementRef): (s: string)
    ensures |s| > 1 && '/' in s
  {
    match e
    case NodeRef(id) => "node/" + IntToString(id)
    case RelationRef(id) => "relation/" + IntToString(id)
  }

  /** Different elements are named by different texts, so a lookup by text
      and a lookup by element answer alike. */
  lemma ElementPathInjective(e1: ElementRef, e2: ElementRef)
    requires ElementPath(e1) == ElementPath(e2)
    ensures e1 == e2
  {
    var s := ElementPath(e1);
    assert s[0] == (if e1.NodeRef? then 'n' else 'r');
    assert ElementPath(e2)[0] == (if e2.NodeRef? then 'n' else 'r');
    if e1.NodeRef? == e2.NodeRef? {
      var n := if e1.NodeRef? then 5 else 9;
      assert s[n..] == IntToString(e1.id);
      assert s[n..] == IntToString(e2.id);
      IntToStringInjective(e1.id, e2.id);
    }
  }

  /** The record of a point is kept when it has a `location`. */
  predicate HasLocation(r: AddressRecord) {
    "location" in r.fields
  }

  function RecordOf(p: PlaceNode, address: (ElementRef, string) -> Tags, language: string,
                    choice: seq<string>): AddressRecord {
    BuildRecord(address(NodeRef(p.id), language), choice, p.position)
  }

  /** The address records of `nodes`, one per node, in node order. */
  function RecordsOf(nodes: seq<PlaceNode>, address: (ElementRef, string) -> Tags, language: string,
                     choice: seq<string>): (rs: seq<AddressRecord>)
    ensures |rs| == |nodes|
  {
    if nodes == [] then []
    else RecordsOf(nodes[..|nodes| - 1], address, language, choice) + [RecordOf(nodes[|nodes| - 1], address, language, choice)]
  }

  /** The record at position `k` is the record of node `k`. */
  lemma {:induction false} RecordsOfIndex(nodes: seq<PlaceNode>, address: (ElementRef, string) -> Tags, language: string,
                                          choice: seq<string>, k: nat)
    requires k < |nodes|
    ensures RecordsOf(nodes, address, language, choice)[k] == RecordOf(nodes[k], address, language, choice)
    decreases |nodes|
  {
    var init := nodes[..|nodes| - 1];
    if k < |init| {
      RecordsOfIndex(init, address, language, choice, k);
      assert init[k] == nodes[k];
    }
  }

  /** The records that have a location, in their original order: the rows
      `locations_search` keeps. */
  function Kept(rs: seq<AddressRecord>): (ks: seq<AddressRecord>)
    ensures |ks| <= |rs|
    ensures forall r :: r in ks ==> HasLocation(r)
  {
    if rs == [] then []
    else Kept(rs[..|rs| - 1]) + (if HasLocation(rs[|rs| - 1]) then [rs[|rs| - 1]] else [])
  }

  /** One more record is kept, after the others, exactly when it has a location. */
  lemma KeptSnoc(rs: seq<AddressRecord>, r: AddressRecord)
    ensures Kept(rs + [r]) == Kept(rs) + (if HasLocation(r) then [r] else [])
  {
    assert (rs + [r])[..|rs|] == rs;
  }

  /** Keeping distributes over concatenation, so kept records stay in order. */
  lemma {:induction false} KeptAppend(a: seq<AddressRecord>, b: seq<AddressRecord>)
    ensures Kept(a + b) == Kept(a) + Kept(b)
    decreases |b|
  {
    if b == [] {
      assert a + b == a;
    } else {
      var n := |b| - 1;
      assert (a + b)[..|a + b| - 1] == a + b[..n];
      KeptAppend(a, b[..n]);
    }
  }

  /** Every record with a location is kept, and nothing else. */
  lemma {:induction false} KeptExactly(rs: seq<AddressRecord>, r: AddressRecord)
    ensures r in Kept(rs) <==> r in rs && HasLocation(r)
  {
    if rs != [] {
      var n := |rs| - 1;
      KeptExactly(rs[..n], r);
      assert rs == rs[..n] + [rs[n]];
      assert r in rs <==> r in rs[..n] || r == rs[n];
    }
  }

  /** The position of the last record with a location, if any. */
  function LastKept(rs: seq<AddressRecord>): (k: Option<nat>)
    ensures k.Some? ==> k.value < |rs|
  {
    if rs == [] then None
    else if HasLocation(rs[|rs| - 1]) then Some(|rs| - 1)
    else LastKept(rs[..|rs| - 1])
  }

  /** `LastKept` finds a record with a location with none after it, and finds
      nothing exactly when no record is kept. */
  lemma {:induction false} LastKeptCharacterised(rs: seq<AddressRecord>)
    ensures var k := LastKept(rs);
      && (k.Some? ==> HasLocation(rs[k.value]) && forall j :: k.value < j < |rs| ==> !HasLocation(rs[j]))
      && (k.Some? ==> Kept(rs) != [] && Kept(rs)[|Kept(rs)| - 1] == rs[k.value])
      && (k.None? <==> Kept(rs) == [])
  {
    if rs != [] && !HasLocation(rs[|rs| - 1]) {
      var n := |rs| - 1;
      LastKeptCharacterised(rs[..n]);
      assert forall j :: 0 <= j < n ==> rs[..n][j] == rs[j];
    }
  }

  /** The progress shown after the points of an area: the position and the
      location of the last record with a location, or `(obj, sub)` when there
      is none. */
  function LastMark(rs: seq<AddressRecord>, obj: int, sub: string): (int, string) {
    if rs == [] then (obj, sub)
    else if HasLocation(rs[|rs| - 1]) then (|rs| - 1, rs[|rs| - 1].fields["location"])
    else LastMark(rs[..|rs| - 1], obj, sub)
  }

  /** One more record becomes the progress shown exactly when it has a location. */
  lemma LastMarkSnoc(rs: seq<AddressRecord>, r: AddressRecord, obj: int, sub: string)
    ensures LastMark(rs + [r], obj, sub)
         == if HasLocation(r) then (|rs|, r.fields["location"]) else LastMark(rs, obj, sub)
  {
    assert (rs + [r])[..|rs|] == rs;
  }

  /** The progress shown is the position of the last kept record and its
      location; without kept records it is left as it was. */
  lemma {:induction false} LastMarkIsLastKept(rs: seq<AddressRecord>, obj: int, sub: string)
    ensures var m := LastMark(rs, obj, sub);
            var k := LastKept(rs);
            var ks := Kept(rs);
      && (ks == [] ==> m == (obj, sub))
      && (ks != [] ==> k.Some? && HasLocation(ks[|ks| - 1]) && m == (k.value, ks[|ks| - 1].fields["location"]))
  {
    LastKeptCharacterised(rs);
    if rs != [] && !HasLocation(rs[|rs| - 1]) {
      LastMarkIsLastKept(rs[..|rs| - 1], obj, sub);
    }
  }

  /** The points-layer entries for kept records: one point named after the
      location, at the record's position. */
  function Placemarks(parent: Parent, records: seq<AddressRecord>): (fs: seq<Feature>)
    requires forall r :: r in records ==> HasLocation(r)
    ensures |fs| == |records|
  {
    if records == [] then []
    else
      var r := records[|records| - 1];
      assert r in records && HasLocation(r);
      Placemarks(parent, records[..|records| - 1]) + [PointMark(r.fields["location"], parent, [LonLat(r.lon, r.lat)])]
  }

  /** The spatial query text for the places inside an area (earth_crawler.py:235-239). */
  function PointsQuery(areaId: int, choice: seq<string>): string {
    "area(" + IntToString(areaId) + ")->.a1; (" + PlaceSelectors(choice) + ");out body;"
  }

  function PlaceSelectors(choice: seq<string>): string {
    if choice == [] then ""
    else PlaceSelectors(choice[..|choice| - 1]) + " nwr[place='" + choice[|choice| - 1] + "'](area.a1);"
  }

  // ---------------------------------------------------------------------
  // Geometry to KML shapes
  // ---------------------------------------------------------------------

  /** The shapes `add_kml_object` adds: a polygon when the types include
      `Polygon` and shapes are kept as polygons, a line string when the types
      include `Line` or polygons are turned into lines. */
  function KmlObjectFeatures(parent: Parent, coords: seq<LonLat>, name: string, types: seq<string>,
                             polygonsToLines: bool): seq<Feature> {
    (if "Polygon" in types && !polygonsToLines then [PolygonShape(name, parent, coords)] else [])
    + (if "Line" in types || polygonsToLines then [LineShape(name, parent, coords)] else [])
  }

  /** The one shape of a polygon ring: a polygon, or a line string when polygons are turned into lines. */
  function RingShape(parent: Parent, coords: seq<LonLat>, name: string, polygonsToLines: bool): Feature {
    if polygonsToLines then LineShape(name, parent, coords) else PolygonShape(name, parent, coords)
  }

  /** A polygon ring (types `['Polygon']`) gives exactly one shape, of the kind the mode asks for. */
  lemma PolygonTypeOneShape(parent: Parent, coords: seq<LonLat>, name: string, polygonsToLines: bool)
    ensures KmlObjectFeatures(parent, coords, name, ["Polygon"], polygonsToLines) ==
            [RingShape(parent, coords, name, polygonsToLines)]
  {
    assert "Line" !in ["Polygon"];
  }

  /** The name of part `i` (counting from 1) of a multi-polygon. */
  function PartName(name: string, i: nat): string {
    name + "_" + NatToString(i)
  }

  /** Parts of one multi-polygon get different names. */
  lemma PartNamesDistinct(name: string, i: nat, j: nat)
    requires i != j
    ensures PartName(name, i) != PartName(name, j)
  {
    if PartName(name, i) == PartName(name, j) {
      assert PartName(name, i)[|name| + 1..] == NatToString(i);
      assert PartName(name, j)[|name| + 1..] == NatToString(j);
      IntToStringInjective(i, j);
    }
  }

  /** The features that a loaded geometry adds under `parent` when the
      document already holds `base` features: for a multi-polygon, a folder
      named `name` and then one shape per part inside it, named `name_1`,
      `name_2`, ...; for a polygon, one shape named `name`; for any other
      geometry, nothing. */
  function WktFeatures(base: nat, parent: Parent, g: Geometry, name: string, polygonsToLines: bool): seq<Feature> {
    match g
    case MultiPolygon(exteriors) =>
      [Folder(name, parent)] + PartShapes(InFolder(base), exteriors, name, polygonsToLines)
    case Polygon(exterior) => [RingShape(parent, exterior, name, polygonsToLines)]
    case OtherGeometry(_) => []
  }

  function PartShapes(folder: Parent, exteriors: seq<seq<LonLat>>, name: string, polygonsToLines: bool): (fs: seq<Feature>)
    ensures |fs| == |exteriors|
    ensures forall k :: 0 <= k < |fs| ==> fs[k].parent == folder
  {
    if exteriors == [] then []
    else
      var n := |exteriors| - 1;
      PartShapes(folder, exteriors[..n], name, polygonsToLines)
      + [RingShape(folder, exteriors[n], PartName(name, n + 1), polygonsToLines)]
  }

  /** The part shapes grow one part at a time. */
  lemma PartShapesSnoc(folder: Parent, exteriors: seq<seq<LonLat>>, i: nat, name: string, polygonsToLines: bool)
    requires i < |exteriors|
    ensures PartShapes(folder, exteriors[..i + 1], name, polygonsToLines)
         == PartShapes(folder, exteriors[..i], name, polygonsToLines)
            + [RingShape(folder, exteriors[i], PartName(name, i + 1), polygonsToLines)]
  {
    assert exteriors[..i + 1][..i] == exteriors[..i];
  }

  /** Part `i` is the ring of polygon `i`, named with number `i + 1`. */
  lemma {:induction false} PartShapesIndex(folder: Parent, exteriors: seq<seq<LonLat>>, name: string,
                                           polygonsToLines: bool, i: nat)
    requires i < |exteriors|
    ensures PartShapes(folder, exteriors, name, polygonsToLines)[i]
         == RingShape(folder, exteriors[i], PartName(name, i + 1), polygonsToLines)
    decreases |exteriors|
  {
    var n := |exteriors| - 1;
    if i < n {
      PartShapesIndex(folder, exteriors[..n], name, polygonsToLines, i);
    }
  }

  /** What a geometry adds, shape by shape: for a multi-polygon its folder and
      then one ring per polygon, in polygon order, numbered from 1. */
  lemma WktFeaturesLayout(base: nat, parent: Parent, g: Geometry, name: string, polygonsToLines: bool)
    ensures var fs := WktFeatures(base, parent, g, name, polygonsToLines);
      && (g.MultiPolygon? ==>
            && |fs| == 1 + |g.exteriors|
            && fs[0] == Folder(name, parent)
            && forall i :: 0 <= i < |g.exteriors| ==>
                 fs[i + 1] == RingShape(InFolder(base), g.exteriors[i], PartName(name, i + 1), polygonsToLines))
      && (g.Polygon? ==> fs == [RingShape(parent, g.exterior, name, polygonsToLines)])
      && (g.OtherGeometry? ==> fs == [])
  {
    if g.MultiPolygon? {
      var fs := WktFeatures(base, parent, g, name, polygonsToLines);
      forall i | 0 <= i < |g.exteriors|
        ensures fs[i + 1] == RingShape(InFolder(base), g.exteriors[i], PartName(name, i + 1), polygonsToLines)
      {
        PartShapesIndex(InFolder(base), g.exteriors, name, polygonsToLines, i);
      }
    }
  }

  lemma {:induction false} NoChildrenOfLaterFolder(fs: seq<Feature>, n: nat)
    requires WellFormed(fs) && |fs| <= n
    ensures ChildrenOf(fs, InFolder(n)) == []
    decreases |fs|
  {
    if fs != [] {
      var m := |fs| - 1;
      assert fs[..m] == fs[..|fs| - 1];
      assert WellFormed(fs[..m]) by {
        forall k | 0 <= k < m ensures IsContainer(fs[..m][..k], fs[..m][k].parent) {
          assert fs[..m][..k] == fs[..k];
        }
      }
      NoChildrenOfLaterFolder(fs[..m], n);
      assert IsContainer(fs[..m], fs[m].parent);
    }
  }

  lemma {:induction false} ChildrenOfOwnFolder(folder: Parent, exteriors: seq<seq<LonLat>>, name: string, polygonsToLines: bool)
    ensures ChildrenOf(PartShapes(folder, exteriors, name, polygonsToLines), folder) == PartShapes(folder, exteriors, name, polygonsToLines)
    decreases |exteriors|
  {
    if exteriors != [] {
      var n := |exteriors| - 1;
      var fs := PartShapes(folder, exteriors, name, polygonsToLines);
      assert fs[..n] == PartShapes(folder, exteriors[..n], name, polygonsToLines);
      ChildrenOfOwnFolder(folder, exteriors[..n], name, polygonsToLines);
      assert fs == fs[..n] + [fs[n]];
    }
  }

  /** In a well-formed document, the folder made for a multi-polygon holds
      exactly its part shapes, in part order. */
  lemma MultiPolygonFolderContents(fs: seq<Feature>, parent: Parent, exteriors: seq<seq<LonLat>>, name: string,
                                   polygonsToLines: bool)
    requires WellFormed(fs) && IsContainer(fs, parent)
    ensures var added := WktFeatures(|fs|, parent, MultiPolygon(exteriors), name, polygonsToLines);
      && added[0] == Folder(name, parent)
      && ChildrenOf(fs + added, InFolder(|fs|)) == PartShapes(InFolder(|fs|), exteriors, name, polygonsToLines)
  {
    var folder := InFolder(|fs|);
    var shapes := PartShapes(folder, exteriors, name, polygonsToLines);
    var added := WktFeatures(|fs|, parent, MultiPolygon(exteriors), name, polygonsToLines);
    assert fs + added == (fs + [Folder(name, parent)]) + shapes;
    ChildrenOfAppend(fs + [Folder(name, parent)], shapes, folder);
    ChildrenOfAppend(fs, [Folder(name, parent)], folder);
    NoChildrenOfLaterFolder(fs, |fs|);
    assert [Folder(name, parent)][..0] == [];
    assert ChildrenOf([Folder(name, parent)], folder) == [];
    ChildrenOfOwnFolder(folder, exteriors, name, polygonsToLines);
  }

  /** Each shape a geometry adds sits in `parent` or in the folder added first. */
  lemma WktShapeContainer(fs: seq<Feature>, parent: Parent, g: Geometry, name: string, polygonsToLines: bool, j: nat)
    requires IsContainer(fs, parent)
    requires j < |WktFeatures(|fs|, parent, g, name, polygonsToLines)|
    ensures var ws := WktFeatures(|fs|, parent, g, name, polygonsToLines);
      IsContainer(fs + ws[..j], ws[j].parent)
  {
    var ws := WktFeatures(|fs|, parent, g, name, polygonsToLines);
    ContainerKept(fs, ws[..j], parent);
    if g.MultiPolygon? && j > 0 {
      assert (fs + ws[..j])[|fs|] == ws[0];
    }
  }

  /** The shapes a geometry adds keep the document a well-formed tree. */
  lemma WktFeaturesWellFormed(fs: seq<Feature>, parent: Parent, g: Geometry, name: string, polygonsToLines: bool)
    requires WellFormed(fs) && IsContainer(fs, parent)
    ensures WellFormed(fs + WktFeatures(|fs|, parent, g, name, polygonsToLines))
  {
    var ws := WktFeatures(|fs|, parent, g, name, polygonsToLines);
    var gs := fs + ws;
    forall k | 0 <= k < |gs| ensures IsContainer(gs[..k], gs[k].parent) {
      if k < |fs| {
        assert gs[..k] == fs[..k];
      } else {
        WktShapeContainer(fs, parent, g, name, polygonsToLines, k - |fs|);
        assert gs[k] == ws[k - |fs|];
        assert gs[..k] == fs + ws[..k - |fs|];
      }
    }
  }
}
