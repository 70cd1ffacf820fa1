/** `tantivy_search` (search.py:30-115): resolve a query into ranked,
    budget-bounded results in three tiers, each tried only when the previous
    one found nothing.

    The search engine is a parameter. For a token it yields the addresses the
    fuzzy per-token query matches (the set `token_hit`, given in the order
    `list(token_hit)` enumerates it); for the whole query it yields its
    ranked hit list, of which `searcher.search(query, limit)` returns the
    first `limit`; and for an address it yields the stored fields, snippets
    and highlight counts that `highlight` copies into its record. */
module Query {
  import opened Common
  import opened Ranking
  import opened Records
  import opened Grouping

  /** The `results` value of the returned dictionary: a list of records, or
      (with `groupby`) the doctype-to-records dictionary in its key order. */
  datatype Results = Flat(hits: seq<Hit>) | Grouped(groups: seq<Group>)

  /** The returned dictionary, without the elapsed `duration`. */
  datatype Page = Page(results: Results, total: nat)

  /** How a query was resolved: the tier that produced `results` (0 when no
      token matched anything and the search returned early), the candidate
      addresses, and every highlight record computed on the way. */
  datatype Resolution = Resolution(tier: nat, results: seq<Addr>, highlights: seq<Hit>)

  /** The list `hits`: one hit set per token. */
  function HitSets(tokens: seq<string>, tokenHits: string -> seq<Addr>): (hits: seq<seq<Addr>>)
    ensures |hits| == |tokens|
  {
    seq(|tokens|, i requires 0 <= i < |tokens| => tokenHits(tokens[i]))
  }

  /** What `highlight(addrs, ...)` returns: one record per address, in order. */
  function Highlight(addrs: seq<Addr>, view: Addr -> DocView): (hs: seq<Hit>)
    ensures |hs| == |addrs|
  {
    seq(|addrs|, i requires 0 <= i < |addrs| => Hit(addrs[i], view(addrs[i])))
  }

  /** The records the token loop appends to `highlights` (search.py:53). */
  function TokenHighlights(hits: seq<seq<Addr>>, view: Addr -> DocView): seq<Hit> {
    if hits == [] then []
    else TokenHighlights(hits[..|hits| - 1], view) + Highlight(hits[|hits| - 1], view)
  }

  /** `all(not hit for hit in hits)`: true for no tokens at all. */
  predicate AllEmpty(hits: seq<seq<Addr>>) {
    forall i :: 0 <= i < |hits| ==> hits[i] == []
  }

  /** The address lies in every hit set. */
  predicate InAll(a: Addr, hits: seq<seq<Addr>>) {
    forall i :: 0 <= i < |hits| ==> a in hits[i]
  }

  /** The elements of `xs` that lie in every hit set, in order. */
  function KeepInAll(xs: seq<Addr>, hits: seq<seq<Addr>>): seq<Addr> {
    if xs == [] then []
    else (if InAll(xs[0], hits) then [xs[0]] else []) + KeepInAll(xs[1..], hits)
  }

  /** `list(set.intersection(*hits))`, enumerated in the order of the first set. */
  function Intersection(hits: seq<seq<Addr>>): seq<Addr>
    requires |hits| > 0
  {
    KeepInAll(hits[0], hits[1..])
  }

  /** Tier 3: the first `perToken` addresses of every hit set, concatenated in
      token order (search.py:88-90). */
  function PerTokenMerge(hits: seq<seq<Addr>>, perToken: nat): seq<Addr> {
    if hits == [] then []
    else PerTokenMerge(hits[..|hits| - 1], perToken) + Take(hits[|hits| - 1], perToken)
  }

  /** The three tiers of search.py:42-90. */
  function Resolve(hits: seq<seq<Addr>>, ranked: seq<Addr>, view: Addr -> DocView, target: nat): Resolution {
    var highlights := TokenHighlights(hits, view);
    if AllEmpty(hits) then Resolution(0, [], highlights)
    else
      var tier1 := Intersection(hits);
      if tier1 != [] then Resolution(1, tier1, highlights)
      else
        // the comprehension's `in results` test reads the still-empty list
        var tier2 := Take(ranked, Share(target, 3));
        var highlights2 := highlights + Highlight(tier2, view);
        if tier2 != [] then Resolution(2, tier2, highlights2)
        else Resolution(3, PerTokenMerge(hits, Share(target, |hits|)), highlights2)
  }

  /** `result_docs` before sorting: the highlight records whose address is a
      result, each kept once, in first-seen order (search.py:92-95). */
  function Collect(highlights: seq<Hit>, results: seq<Addr>): (r: seq<Hit>)
    ensures forall h :: h in r <==> h in highlights && h.addr in results
    ensures NoDuplicates(r)
  {
    if highlights == [] then []
    else
      var prev := Collect(highlights[..|highlights| - 1], results);
      var h := highlights[|highlights| - 1];
      assert highlights == highlights[..|highlights| - 1] + [h];
      if h !in prev && h.addr in results then prev + [h] else prev
  }

  /** `result_docs` after the sort of search.py:97-101. */
  function RankedDocs(res: Resolution): seq<Hit> {
    SortDesc(Collect(res.highlights, res.results), HitRank)
  }

  /** The page built from the ranked records (search.py:104-115): grouped and
      trimmed, or cut to the budget with the budget reported as the total. */
  function ShapePage(docs: seq<Hit>, target: nat, groupby: bool): Result<Page> {
    if groupby then
      if docs == [] then Err(ZeroDivision)
      else
        var grouped := GroupedSpec(docs, target);
        Ok(Page(Grouped(grouped.1), grouped.0))
    else Ok(Page(Flat(Take(docs, target)), target))
  }

  /** What `tantivy_search(query_txt, target_number, groupby)` returns, `tokens`
      being `query_txt.split()`, or the error it raises. */
  function SearchSpec(tokens: seq<string>, tokenHits: string -> seq<Addr>, ranked: seq<Addr>,
                      view: Addr -> DocView, target: nat, groupby: bool): Result<Page>
  {
    var res := Resolve(HitSets(tokens, tokenHits), ranked, view, target);
    if res.tier == 0 then Ok(Page(Flat([]), 0))
    else ShapePage(RankedDocs(res), target, groupby)
  }

  // ---------------------------------------------------------------------
  // Properties of the tiers

  /** The early return fires exactly when no token matched anything, which
      includes the query with no tokens; it returns no results and total 0. */
  lemma NoHitsShortCircuit(tokens: seq<string>, tokenHits: string -> seq<Addr>, ranked: seq<Addr>,
                           view: Addr -> DocView, target: nat, groupby: bool)
    ensures Resolve(HitSets(tokens, tokenHits), ranked, view, target).tier == 0
            <==> forall i :: 0 <= i < |tokens| ==> tokenHits(tokens[i]) == []
    ensures tokens == [] ==> SearchSpec(tokens, tokenHits, ranked, view, target, groupby) == Ok(Page(Flat([]), 0))
    ensures (forall i :: 0 <= i < |tokens| ==> tokenHits(tokens[i]) == [])
            ==> SearchSpec(tokens, tokenHits, ranked, view, target, groupby) == Ok(Page(Flat([]), 0))
  {
    var hits := HitSets(tokens, tokenHits);
    assert forall i :: 0 <= i < |tokens| ==> hits[i] == tokenHits(tokens[i]);
  }

  lemma {:induction false} KeepInAllExact(xs: seq<Addr>, hits: seq<seq<Addr>>, a: Addr)
    ensures a in KeepInAll(xs, hits) <==> a in xs && InAll(a, hits)
  {
    if xs != [] {
      KeepInAllExact(xs[1..], hits, a);
      assert xs == [xs[0]] + xs[1..];
    }
  }

  /** Tier 1 is reached only when some token matched, and then its results
      are exactly the addresses every token matched; tiers 2 and 3 are tried
      only when no address is common to all hit sets. */
  lemma TierOneIsIntersection(hits: seq<seq<Addr>>, ranked: seq<Addr>, view: Addr -> DocView, target: nat, a: Addr)
    requires !AllEmpty(hits)
    ensures Resolve(hits, ranked, view, target).tier == 1 ==>
              (a in Resolve(hits, ranked, view, target).results <==> InAll(a, hits))
    ensures Resolve(hits, ranked, view, target).tier >= 2 ==> !InAll(a, hits)
  {
    KeepInAllExact(hits[0], hits[1..], a);
    assert InAll(a, hits) <==> a in hits[0] && InAll(a, hits[1..]) by {
      if a in hits[0] && InAll(a, hits[1..]) {
        forall i | 0 <= i < |hits| ensures a in hits[i] {
          if i > 0 { assert hits[1..][i - 1] == hits[i]; }
        }
      }
    }
  }

  /** Tier 2 adds at most `target // 3` addresses, all from the whole-query
      ranking in its order, and no duplicates when the ranking has none. */
  lemma TierTwoBounded(hits: seq<seq<Addr>>, ranked: seq<Addr>, view: Addr -> DocView, target: nat)
    requires Resolve(hits, ranked, view, target).tier == 2
    ensures |Resolve(hits, ranked, view, target).results| <= Share(target, 3)
    ensures Resolve(hits, ranked, view, target).results == ranked[..|Resolve(hits, ranked, view, target).results|]
    ensures NoDuplicates(ranked) ==> NoDuplicates(Resolve(hits, ranked, view, target).results)
  {
  }

  lemma {:induction false} PerTokenMergeLength(hits: seq<seq<Addr>>, perToken: nat)
    ensures |PerTokenMerge(hits, perToken)| <= |hits| * perToken
  {
    if hits != [] {
      var init := hits[..|hits| - 1];
      PerTokenMergeLength(init, perToken);
      assert |hits| * perToken == |init| * perToken + perToken;
    }
  }

  lemma {:induction false} PerTokenMergeNone(hits: seq<seq<Addr>>)
    ensures PerTokenMerge(hits, 0) == []
  {
    if hits != [] {
      PerTokenMergeNone(hits[..|hits| - 1]);
    }
  }

  lemma {:induction false} PerTokenMergeOrigin(hits: seq<seq<Addr>>, perToken: nat, a: Addr)
    requires a in PerTokenMerge(hits, perToken)
    ensures exists i :: 0 <= i < |hits| && a in Take(hits[i], perToken)
  {
    var init := hits[..|hits| - 1];
    var last := |hits| - 1;
    if a in PerTokenMerge(init, perToken) {
      PerTokenMergeOrigin(init, perToken, a);
      var i :| 0 <= i < |init| && a in Take(init[i], perToken);
      assert init[i] == hits[i];
    } else {
      assert a in Take(hits[last], perToken);
    }
  }

  /** Tier 3 takes at most `target // len(hits)` addresses from each hit set,
      so at most `target` in all, and every address comes from a hit set. */
  lemma TierThreeBounded(hits: seq<seq<Addr>>, ranked: seq<Addr>, view: Addr -> DocView, target: nat)
    requires Resolve(hits, ranked, view, target).tier == 3
    ensures |Resolve(hits, ranked, view, target).results| <= target
    ensures forall a :: a in Resolve(hits, ranked, view, target).results ==>
              exists i :: 0 <= i < |hits| && a in hits[i][..Min(Share(target, |hits|), |hits[i]|)]
  {
    PerTokenMergeLength(hits, Share(target, |hits|));
    ShareBound(target, |hits|);
    forall a | a in Resolve(hits, ranked, view, target).results
      ensures exists i :: 0 <= i < |hits| && a in hits[i][..Min(Share(target, |hits|), |hits[i]|)]
    {
      PerTokenMergeOrigin(hits, Share(target, |hits|), a);
    }
  }

  // ---------------------------------------------------------------------
  // Properties of the ranked records

  /** Two records for the same address are the same record: `highlight` is a
      function of the address. */
  ghost predicate FromView(hs: seq<Hit>, view: Addr -> DocView) {
    forall h :: h in hs ==> h.view == view(h.addr)
  }

  lemma {:induction false} TokenHighlightsFromView(hits: seq<seq<Addr>>, view: Addr -> DocView)
    ensures FromView(TokenHighlights(hits, view), view)
    ensures forall i, a :: 0 <= i < |hits| && a in hits[i] ==> Hit(a, view(a)) in TokenHighlights(hits, view)
  {
    if hits != [] {
      var init := hits[..|hits| - 1];
      TokenHighlightsFromView(init, view);
      forall i, a | 0 <= i < |hits| && a in hits[i]
        ensures Hit(a, view(a)) in TokenHighlights(hits, view)
      {
        if i < |init| {
          assert init[i] == hits[i];
        } else {
          var k :| 0 <= k < |hits[i]| && hits[i][k] == a;
          assert Highlight(hits[i], view)[k] == Hit(a, view(a));
        }
      }
    }
  }

  lemma ResolveFromView(hits: seq<seq<Addr>>, ranked: seq<Addr>, view: Addr -> DocView, target: nat)
    ensures FromView(Resolve(hits, ranked, view, target).highlights, view)
  {
    TokenHighlightsFromView(hits, view);
  }

  /** The ranked records are the highlight records of result addresses, each
      address once, ordered by `(title count, content count)` descending, and
      records with equal counts stay in the order they were found. */
  lemma RankedRecords(tokens: seq<string>, tokenHits: string -> seq<Addr>, ranked: seq<Addr>,
                      view: Addr -> DocView, target: nat, k: Rank)
    ensures var res := Resolve(HitSets(tokens, tokenHits), ranked, view, target);
            var docs := SortDesc(Collect(res.highlights, res.results), HitRank);
            && (forall h :: h in docs <==> h in res.highlights && h.addr in res.results)
            && (forall i, j :: 0 <= i < j < |docs| ==> docs[i].addr != docs[j].addr)
            && NonIncreasing(docs, HitRank)
            && WithRank(docs, HitRank, k) == WithRank(Collect(res.highlights, res.results), HitRank, k)
  {
    var res := Resolve(HitSets(tokens, tokenHits), ranked, view, target);
    var collected := Collect(res.highlights, res.results);
    var docs := SortDesc(collected, HitRank);
    ResolveFromView(HitSets(tokens, tokenHits), ranked, view, target);
    SortDescSameElements(collected, HitRank);
    SortDescStable(collected, HitRank, k);
    PermutationNoDuplicates(docs, collected);
    forall i, j | 0 <= i < j < |docs|
      ensures docs[i].addr != docs[j].addr
    {
      assert docs[i] in collected && docs[j] in collected;
    }
  }

  // ---------------------------------------------------------------------
  // Properties of the returned page

  /** The number of records returned never exceeds the budget, and in grouped
      mode neither does the reported total, nor any group's share. */
  lemma SearchRespectsBudget(tokens: seq<string>, tokenHits: string -> seq<Addr>, ranked: seq<Addr>,
                             view: Addr -> DocView, target: nat, groupby: bool)
    requires SearchSpec(tokens, tokenHits, ranked, view, target, groupby).Ok?
    ensures var page := SearchSpec(tokens, tokenHits, ranked, view, target, groupby).value;
            && (page.results.Flat? ==> |page.results.hits| <= target)
            && (page.results.Grouped? ==> page.total == TotalSize(page.results.groups) <= target)
  {
    var res := Resolve(HitSets(tokens, tokenHits), ranked, view, target);
    if res.tier != 0 && groupby {
      GroupedTotalWithinBudget(RankedDocs(res), target);
    }
  }

  /** Ungrouped, once some token matched, the reported total is the budget
      itself, not the number of records returned (search.py:107). */
  lemma UngroupedTotalIsBudget(tokens: seq<string>, tokenHits: string -> seq<Addr>, ranked: seq<Addr>,
                               view: Addr -> DocView, target: nat)
    requires exists i :: 0 <= i < |tokens| && tokenHits(tokens[i]) != []
    ensures SearchSpec(tokens, tokenHits, ranked, view, target, false).Ok?
    ensures SearchSpec(tokens, tokenHits, ranked, view, target, false).value.total == target
  {
    var i :| 0 <= i < |tokens| && tokenHits(tokens[i]) != [];
    assert HitSets(tokens, tokenHits)[i] != [];
  }

  lemma {:induction false} MergeHasHead(hits: seq<seq<Addr>>, perToken: nat, i: nat)
    requires perToken > 0 && i < |hits| && hits[i] != []
    ensures hits[i][0] in PerTokenMerge(hits, perToken)
  {
    var init := hits[..|hits| - 1];
    if i < |init| {
      assert init[i] == hits[i];
      MergeHasHead(init, perToken, i);
    } else {
      assert Take(hits[i], perToken)[0] == hits[i][0];
    }
  }

  lemma SurvivorIsRanked(res: Resolution, h: Hit)
    requires h in res.highlights && h.addr in res.results
    ensures RankedDocs(res) != []
  {
    var collected := Collect(res.highlights, res.results);
    assert h in collected;
    SortDescSameElements(collected, HitRank);
  }

  lemma SomeRecordSurvives(hits: seq<seq<Addr>>, ranked: seq<Addr>, view: Addr -> DocView, target: nat)
    requires var res := Resolve(hits, ranked, view, target);
             res.tier == 1 || res.tier == 2 || (res.tier == 3 && target >= |hits|)
    ensures RankedDocs(Resolve(hits, ranked, view, target)) != []
  {
    var res := Resolve(hits, ranked, view, target);
    var tokenHighlights := TokenHighlights(hits, view);
    assert tokenHighlights <= res.highlights;
    if res.tier == 1 {
      var a := res.results[0];
      KeepInAllExact(hits[0], hits[1..], a);
      TokenHighlightsFromView(hits, view);
      assert Hit(a, view(a)) in tokenHighlights;
      SurvivorIsRanked(res, Hit(a, view(a)));
    } else if res.tier == 2 {
      var a := res.results[0];
      assert Highlight(res.results, view)[0] == Hit(a, view(a));
      SurvivorIsRanked(res, Hit(a, view(a)));
    } else {
      var i :| 0 <= i < |hits| && hits[i] != [];
      ShareAtLeastOne(target, |hits|);
      MergeHasHead(hits, Share(target, |hits|), i);
      var a := hits[i][0];
      TokenHighlightsFromView(hits, view);
      assert Hit(a, view(a)) in tokenHighlights;
      SurvivorIsRanked(res, Hit(a, view(a)));
    }
  }

  lemma NoRecordSurvives(hits: seq<seq<Addr>>, ranked: seq<Addr>, view: Addr -> DocView, target: nat)
    requires Resolve(hits, ranked, view, target).tier == 3 && target < |hits|
    ensures RankedDocs(Resolve(hits, ranked, view, target)) == []
  {
    var res := Resolve(hits, ranked, view, target);
    ShareZero(target, |hits|);
    PerTokenMergeNone(hits);
    assert res.results == [];
    CollectNothing(res.highlights);
  }

  lemma {:induction false} CollectNothing(highlights: seq<Hit>)
    ensures Collect(highlights, []) == []
  {
    if highlights != [] {
      CollectNothing(highlights[..|highlights| - 1]);
    }
  }

  /** With grouping on, the search fails with ZeroDivisionError exactly when it
      falls through to tier 3 with fewer budget units than tokens: every hit
      set then contributes nothing, no record survives, and search.py:123
      divides by zero groups. In every other case some record survives. */
  lemma GroupedFailsExactly(tokens: seq<string>, tokenHits: string -> seq<Addr>, ranked: seq<Addr>,
                            view: Addr -> DocView, target: nat)
    ensures SearchSpec(tokens, tokenHits, ranked, view, target, true).Err?
            <==> Resolve(HitSets(tokens, tokenHits), ranked, view, target).tier == 3 && target < |tokens|
  {
    var hits := HitSets(tokens, tokenHits);
    var res := Resolve(hits, ranked, view, target);
    if res.tier == 3 && target < |tokens| {
      NoRecordSurvives(hits, ranked, view, target);
    } else if res.tier != 0 {
      SomeRecordSurvives(hits, ranked, view, target);
    }
  }

  // ---------------------------------------------------------------------
  // The imperative code

  /** `highlight(results, searcher, query, schema)` (search.py:136-167). */
  method HighlightAll(addrs: seq<Addr>, view: Addr -> DocView) returns (cleaned: seq<Hit>)
    ensures |cleaned| == |addrs|
    ensures forall i :: 0 <= i < |addrs| ==> cleaned[i].addr == addrs[i] && cleaned[i].view == view(addrs[i])
  {
    cleaned := [];
    for i := 0 to |addrs|
      invariant |cleaned| == i
      invariant forall j :: 0 <= j < i ==> cleaned[j].addr == addrs[j] && cleaned[j].view == view(addrs[j])
    {
      cleaned := cleaned + [Hit(addrs[i], view(addrs[i]))];
    }
  }

  lemma TokenHighlightsSnoc(hits: seq<seq<Addr>>, h: seq<Addr>, view: Addr -> DocView)
    ensures TokenHighlights(hits + [h], view) == TokenHighlights(hits, view) + Highlight(h, view)
  {
    assert (hits + [h])[..|hits|] == hits;
  }

  lemma PerTokenMergeSnoc(hits: seq<seq<Addr>>, j: nat, perToken: nat)
    requires j < |hits|
    ensures PerTokenMerge(hits[..j + 1], perToken) == PerTokenMerge(hits[..j], perToken) + Take(hits[j], perToken)
  {
    assert hits[..j + 1][..j] == hits[..j];
  }

  lemma CollectSnoc(highlights: seq<Hit>, j: nat, results: seq<Addr>)
    requires j < |highlights|
    ensures var prev := Collect(highlights[..j], results);
            var h := highlights[j];
            Collect(highlights[..j + 1], results) == if h !in prev && h.addr in results then prev + [h] else prev
  {
    assert highlights[..j + 1][..j] == highlights[..j];
  }

  /** The token loop of search.py:42-53: one hit set per token, and the
      highlight records of every hit set. */
  method SearchTokens(tokens: seq<string>, tokenHits: string -> seq<Addr>, view: Addr -> DocView)
    returns (hits: seq<seq<Addr>>, highlights: seq<Hit>)
    ensures hits == HitSets(tokens, tokenHits)
    ensures highlights == TokenHighlights(hits, view)
  {
    ghost var allHits := HitSets(tokens, tokenHits);
    hits := [];
    highlights := [];
    for i := 0 to |tokens|
      invariant hits == allHits[..i]
      invariant highlights == TokenHighlights(hits, view)
    {
      var tokenHit := tokenHits(tokens[i]);
      var cleaned := HighlightAll(tokenHit, view);
      assert cleaned == Highlight(tokenHit, view);
      assert allHits[..i + 1] == allHits[..i] + [tokenHit];
      TokenHighlightsSnoc(hits, tokenHit, view);
      hits := hits + [tokenHit];
      highlights := highlights + cleaned;
    }
    assert hits == allHits;
  }

  /** The comprehension of search.py:74-83: the whole-query hits not already
      in `results`. */
  method UnseenHits(top: seq<Addr>, results: seq<Addr>) returns (unseen: seq<Addr>)
    ensures forall a :: a in unseen <==> a in top && a !in results
    ensures results == [] ==> unseen == top
  {
    unseen := [];
    for j := 0 to |top|
      invariant forall a :: a in unseen <==> a in top[..j] && a !in results
      invariant results == [] ==> unseen == top[..j]
    {
      assert top[..j + 1] == top[..j] + [top[j]];
      if top[j] !in results {
        unseen := unseen + [top[j]];
      }
    }
    assert top[..|top|] == top;
  }

  /** The loop of search.py:89-90. */
  method MergePerToken(hits: seq<seq<Addr>>, perToken: nat) returns (results: seq<Addr>)
    ensures results == PerTokenMerge(hits, perToken)
  {
    results := [];
    for j := 0 to |hits|
      invariant results == PerTokenMerge(hits[..j], perToken)
    {
      PerTokenMergeSnoc(hits, j, perToken);
      results := results + Take(hits[j], perToken);
    }
    assert hits[..|hits|] == hits;
  }

  /** The loop of search.py:92-95. */
  method CollectResultDocs(highlights: seq<Hit>, results: seq<Addr>) returns (resultDocs: seq<Hit>)
    ensures resultDocs == Collect(highlights, results)
  {
    resultDocs := [];
    for j := 0 to |highlights|
      invariant resultDocs == Collect(highlights[..j], results)
    {
      CollectSnoc(highlights, j, results);
      var h := highlights[j];
      if h !in resultDocs && h.addr in results {
        resultDocs := resultDocs + [h];
      }
    }
    assert highlights[..|highlights|] == highlights;
  }

  /** `tantivy_search` (search.py:30-115), without the clock. */
  method TantivySearch(tokens: seq<string>, tokenHits: string -> seq<Addr>, ranked: seq<Addr>,
                       view: Addr -> DocView, target: nat, groupby: bool) returns (r: Result<Page>)
    ensures r == SearchSpec(tokens, tokenHits, ranked, view, target, groupby)
  {
    var hits, highlights := SearchTokens(tokens, tokenHits, view);
    ghost var res := Resolve(hits, ranked, view, target);

    if forall i | 0 <= i < |hits| :: hits[i] == [] {
      return Ok(Page(Flat([]), 0));
    }

    var results := Intersection(hits);

    if results == [] {
      var unseen := UnseenHits(Take(ranked, Share(target, 3)), results);
      results := results + unseen;
      var cleaned := HighlightAll(results, view);
      assert cleaned == Highlight(results, view);
      highlights := highlights + cleaned;
    }

    if results == [] {
      results := MergePerToken(hits, Share(target, |hits|));
    }
    assert results == res.results && highlights == res.highlights;

    var resultDocs := CollectResultDocs(highlights, results);
    resultDocs := SortDesc(resultDocs, HitRank);

    if groupby {
      if resultDocs == [] {
        // search.py:123 divides by the number of groups, here zero
        return Err(ZeroDivision);
      }
      var n, groups := GroupAndTrim(resultDocs, target);
      r := Ok(Page(Grouped(groups), n));
    } else {
      r := Ok(Page(Flat(Take(resultDocs, target)), target));
    }
  }
}
