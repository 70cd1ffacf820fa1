/** `groupby_and_trim_results` (search.py:118-133): partition the ranked
    records by doctype, cut every group to an equal share of the budget,
    count what is left, and order the groups by size, largest first. */
module Grouping {
  import opened Common
  import opened Ranking
  import opened Records

  /** One entry of the returned dictionary: a doctype and its records. */
  datatype Group = Group(doctype: string, records: seq<Hit>)

  /** Ordering key for groups: `len(group)`. */
  function GroupSize(g: Group): Rank {
    Rank(|g.records|, 0)
  }

  /** The doctypes of `records` in first-seen order: the key order of the
      `defaultdict` the loop at search.py:119-121 fills. */
  function Doctypes(records: seq<Hit>): (ks: seq<string>)
    ensures records != [] ==> |ks| > 0
  {
    if records == [] then []
    else
      var init := records[..|records| - 1];
      var last := records[|records| - 1];
      assert records == init + [last];
      var ks := Doctypes(init);
      if Doctype(last) in ks then ks else ks + [Doctype(last)]
  }

  /** The records of doctype `k`, in input order: the list `results[k]`. */
  function OfDoctype(records: seq<Hit>, k: string): seq<Hit> {
    if records == [] then []
    else
      var init := records[..|records| - 1];
      var last := records[|records| - 1];
      OfDoctype(init, k) + (if Doctype(last) == k then [last] else [])
  }

  /** Each doctype is listed once. */
  lemma {:induction false} DoctypesDistinct(records: seq<Hit>)
    ensures NoDuplicates(Doctypes(records))
  {
    if records != [] {
      DoctypesDistinct(records[..|records| - 1]);
    }
  }

  /** The doctypes listed are exactly those of the records. */
  lemma {:induction false} DoctypesExact(records: seq<Hit>, k: string)
    ensures k in Doctypes(records) <==> exists h :: h in records && Doctype(h) == k
  {
    if records != [] {
      var init := records[..|records| - 1];
      var last := records[|records| - 1];
      assert records == init + [last];
      DoctypesExact(init, k);
    }
  }

  /** `results[k]` holds exactly the records of doctype `k`. */
  lemma {:induction false} OfDoctypeExact(records: seq<Hit>, k: string, h: Hit)
    ensures h in OfDoctype(records, k) <==> h in records && Doctype(h) == k
  {
    if records != [] {
      var init := records[..|records| - 1];
      var last := records[|records| - 1];
      assert records == init + [last];
      OfDoctypeExact(init, k, h);
    }
  }

  lemma {:induction false} UnseenDoctypeHasNoRecords(records: seq<Hit>, k: string)
    requires k !in Doctypes(records)
    ensures OfDoctype(records, k) == []
  {
    if records != [] {
      UnseenDoctypeHasNoRecords(records[..|records| - 1], k);
    }
  }

  /** Python's `xs[:n]` for a non-negative `n`. */
  function Take<T>(xs: seq<T>, n: nat): (r: seq<T>)
    ensures |r| == Min(n, |xs|)
  {
    xs[..Min(n, |xs|)]
  }

  /** The groups in first-seen order, each cut to `limit` records (the
      `trimmed_groups` dictionary before sorting). */
  function TrimmedGroups(records: seq<Hit>, limit: nat): seq<Group> {
    var ks := Doctypes(records);
    seq(|ks|, i requires 0 <= i < |ks| => Group(ks[i], Take(OfDoctype(records, ks[i]), limit)))
  }

  /** The sum of the group sizes. */
  function TotalSize(groups: seq<Group>): nat {
    if groups == [] then 0 else |groups[0].records| + TotalSize(groups[1..])
  }

  /** `target // len(results)`: each DocType's equal share of the budget. */
  function Share(target: nat, groups: nat): (r: nat)
    requires groups > 0
  {
    target / groups
  }

  /** What `groupby_and_trim_results(records, target)` returns; `records` must be
      non-empty, for otherwise search.py:123 divides by zero. */
  function GroupedSpec(records: seq<Hit>, target: nat): (nat, seq<Group>)
    requires records != []
  {
    var trimmed := TrimmedGroups(records, Share(target, |Doctypes(records)|));
    (TotalSize(trimmed), SortDesc(trimmed, GroupSize))
  }

  lemma {:induction false} TotalSizeAppend(gs: seq<Group>, g: Group)
    ensures TotalSize(gs + [g]) == TotalSize(gs) + |g.records|
  {
    if gs != [] {
      assert (gs + [g])[1..] == gs[1..] + [g];
      TotalSizeAppend(gs[1..], g);
    }
  }

  lemma {:induction false} TotalSizeInsert(g: Group, gs: seq<Group>)
    ensures TotalSize(Insert(g, gs, GroupSize)) == |g.records| + TotalSize(gs)
  {
    if gs == [] || !Above(GroupSize(gs[0]), GroupSize(g)) {
      assert ([g] + gs)[1..] == gs;
    } else {
      var rest := Insert(g, gs[1..], GroupSize);
      assert ([gs[0]] + rest)[1..] == rest;
      TotalSizeInsert(g, gs[1..]);
    }
  }

  /** Reordering the groups does not change how many records they hold. */
  lemma {:induction false} TotalSizeSorted(gs: seq<Group>)
    ensures TotalSize(SortDesc(gs, GroupSize)) == TotalSize(gs)
  {
    if gs != [] {
      TotalSizeSorted(gs[1..]);
      TotalSizeInsert(gs[0], SortDesc(gs[1..], GroupSize));
    }
  }

  lemma {:induction false} TotalSizeBound(gs: seq<Group>, limit: nat)
    requires forall i :: 0 <= i < |gs| ==> |gs[i].records| <= limit
    ensures TotalSize(gs) <= |gs| * limit
  {
    if gs != [] {
      TotalSizeBound(gs[1..], limit);
    }
  }

  lemma ShareBound(target: nat, g: nat)
    requires g > 0
    ensures g * Share(target, g) <= target
  {
    var q, r := Share(target, g), target % g;
    assert target == g * q + r;
  }

  /** Fewer budget units than groups leave each group no share. */
  lemma ShareZero(target: nat, g: nat)
    requires target < g
    ensures Share(target, g) == 0
  {
  }

  /** At least as many budget units as groups leave each group one or more. */
  lemma ShareAtLeastOne(target: nat, g: nat)
    requires 0 < g <= target
    ensures Share(target, g) >= 1
  {
  }

  /** The reported count is the number of records in the returned groups, and
      it never exceeds the budget. */
  lemma GroupedTotalWithinBudget(records: seq<Hit>, target: nat)
    requires records != []
    ensures GroupedSpec(records, target).0 == TotalSize(GroupedSpec(records, target).1)
    ensures GroupedSpec(records, target).0 <= target
  {
    var ks := Doctypes(records);
    var limit := Share(target, |ks|);
    var trimmed := TrimmedGroups(records, limit);
    TotalSizeSorted(trimmed);
    TotalSizeBound(trimmed, limit);
    ShareBound(target, |ks|);
  }

  /** Every returned group holds only records of its own doctype, is a prefix
      (in input order) of all the records of that doctype, and holds at most
      `target // g` of them, `g` being the number of doctypes. */
  lemma GroupsAreFairPrefixes(records: seq<Hit>, target: nat, grp: Group)
    requires records != []
    requires grp in GroupedSpec(records, target).1
    ensures grp.doctype in Doctypes(records)
    ensures grp.records == Take(OfDoctype(records, grp.doctype), |grp.records|)
    ensures forall h :: h in grp.records ==> Doctype(h) == grp.doctype
    ensures |grp.records| <= Share(target, |Doctypes(records)|)
  {
    var ks := Doctypes(records);
    var limit := Share(target, |ks|);
    var trimmed := TrimmedGroups(records, limit);
    assert grp in multiset(SortDesc(trimmed, GroupSize));
    assert grp in trimmed;
    var i :| 0 <= i < |trimmed| && trimmed[i] == grp;
    assert grp.doctype == ks[i];
    forall h | h in grp.records
      ensures Doctype(h) == grp.doctype
    {
      OfDoctypeExact(records, grp.doctype, h);
    }
  }

  lemma {:induction false} AtMostOnce<T>(t: seq<T>, x: T)
    requires NoDuplicates(t)
    ensures multiset(t)[x] <= 1
  {
    if t != [] {
      assert t == [t[0]] + t[1..];
      AtMostOnce(t[1..], x);
      if t[0] == x {
        assert x !in t[1..];
      }
    }
  }

  lemma PermutationNoDuplicates<T>(s: seq<T>, t: seq<T>)
    requires multiset(s) == multiset(t) && NoDuplicates(t)
    ensures NoDuplicates(s)
  {
    forall i, j | 0 <= i < j < |s|
      ensures s[i] != s[j]
    {
      if s[i] == s[j] {
        assert s == s[..i] + [s[i]] + s[i + 1..j] + [s[j]] + s[j + 1..];
        assert multiset(s)[s[i]] >= 2;
        AtMostOnce(t, s[i]);
      }
    }
  }

  /** Every doctype of the input has a group. */
  lemma GroupForEveryDoctype(records: seq<Hit>, target: nat, k: string)
    requires records != []
    requires k in Doctypes(records)
    ensures exists grp :: grp in GroupedSpec(records, target).1 && grp.doctype == k
  {
    var ks := Doctypes(records);
    var trimmed := TrimmedGroups(records, Share(target, |ks|));
    var m :| 0 <= m < |ks| && ks[m] == k;
    assert trimmed[m] in multiset(SortDesc(trimmed, GroupSize));
  }

  /** No doctype has two groups. */
  lemma GroupDoctypesDistinct(records: seq<Hit>, target: nat)
    requires records != []
    ensures forall i, j :: 0 <= i < j < |GroupedSpec(records, target).1| ==>
              GroupedSpec(records, target).1[i].doctype != GroupedSpec(records, target).1[j].doctype
  {
    var ks := Doctypes(records);
    var trimmed := TrimmedGroups(records, Share(target, |ks|));
    var groups := SortDesc(trimmed, GroupSize);
    DoctypesDistinct(records);
    forall i, j | 0 <= i < j < |groups|
      ensures groups[i].doctype != groups[j].doctype
    {
      assert groups[i] in multiset(trimmed);
      assert groups[j] in multiset(trimmed);
      var a :| 0 <= a < |trimmed| && trimmed[a] == groups[i];
      var b :| 0 <= b < |trimmed| && trimmed[b] == groups[j];
      assert trimmed[a].doctype == ks[a] && trimmed[b].doctype == ks[b];
      if a == b {
        assert NoDuplicates(trimmed) by {
          forall x, y | 0 <= x < y < |trimmed|
            ensures trimmed[x] != trimmed[y]
          {
            assert trimmed[x].doctype == ks[x] && trimmed[y].doctype == ks[y];
          }
        }
        PermutationNoDuplicates(groups, trimmed);
      }
    }
  }

  /** Groups come largest first; groups of equal size keep first-seen order. */
  lemma GroupsLargestFirst(records: seq<Hit>, target: nat, size: nat)
    requires records != []
    ensures NonIncreasing(GroupedSpec(records, target).1, GroupSize)
    ensures WithRank(GroupedSpec(records, target).1, GroupSize, Rank(size, 0))
         == WithRank(TrimmedGroups(records, Share(target, |Doctypes(records)|)), GroupSize, Rank(size, 0))
  {
    SortDescStable(TrimmedGroups(records, Share(target, |Doctypes(records)|)), GroupSize, Rank(size, 0));
  }

  lemma DoctypesSnoc(records: seq<Hit>, i: nat)
    requires i < |records|
    ensures Doctypes(records[..i + 1]) ==
      (if Doctype(records[i]) in Doctypes(records[..i]) then Doctypes(records[..i])
       else Doctypes(records[..i]) + [Doctype(records[i])])
    ensures forall k :: (OfDoctype(records[..i + 1], k)
      == OfDoctype(records[..i], k) + (if Doctype(records[i]) == k then [records[i]] else []))
  {
    assert records[..i + 1][..i] == records[..i];
  }

  /** The loop of search.py:119-129, then the sort of search.py:131-133. */
  method GroupAndTrim(records: seq<Hit>, target: nat) returns (n: nat, groups: seq<Group>)
    requires records != []
    ensures (n, groups) == GroupedSpec(records, target)
  {
    var keys, buckets := GroupByDoctype(records);
    var maxGroupLength := Share(target, |keys|);
    var trimmed;
    n, trimmed := TrimGroups(records, keys, buckets, maxGroupLength);
    groups := SortDesc(trimmed, GroupSize);
  }

  /** The first loop of `groupby_and_trim_results`: one bucket per DocType,
      keys in first-seen order, each bucket in input order. */
  method GroupByDoctype(records: seq<Hit>) returns (keys: seq<string>, buckets: map<string, seq<Hit>>)
    ensures keys == Doctypes(records)
    ensures Bucketed(records, keys, buckets)
  {
    keys := [];
    buckets := map[];
    for i := 0 to |records|
      invariant keys == Doctypes(records[..i])
      invariant forall k :: k in buckets <==> k in keys
      invariant forall k :: k in keys ==> buckets[k] == OfDoctype(records[..i], k)
    {
      DoctypesSnoc(records, i);
      var d := Doctype(records[i]);
      if d in buckets {
        buckets := buckets[d := buckets[d] + [records[i]]];
      } else {
        UnseenDoctypeHasNoRecords(records[..i], d);
        keys := keys + [d];
        buckets := buckets[d := [records[i]]];
      }
    }
    assert records[..|records|] == records;
  }

  /** `buckets` holds, under each of `keys` and nothing else, the records of
      that DocType in input order. */
  ghost predicate Bucketed(records: seq<Hit>, keys: seq<string>, buckets: map<string, seq<Hit>>) {
    (forall k :: k in buckets <==> k in keys)
    && forall k :: k in keys ==> buckets[k] == OfDoctype(records, k)
  }

  /** The second loop: each bucket cut to the per-DocType share, and the
      number of records kept. */
  method TrimGroups(records: seq<Hit>, keys: seq<string>, buckets: map<string, seq<Hit>>, limit: nat)
    returns (n: nat, trimmed: seq<Group>)
    requires keys == Doctypes(records)
    requires Bucketed(records, keys, buckets)
    ensures trimmed == TrimmedGroups(records, limit)
    ensures n == TotalSize(trimmed)
  {
    trimmed := [];
    n := 0;
    for j := 0 to |keys|
      invariant trimmed == TrimmedGroups(records, limit)[..j]
      invariant n == TotalSize(trimmed)
    {
      assert buckets[keys[j]] == OfDoctype(records, keys[j]) by {
        assert keys[j] in keys;
      }
      var res := Take(buckets[keys[j]], limit);
      TrimStep(records, limit, j);
      TotalSizeAppend(trimmed, Group(keys[j], res));
      trimmed := trimmed + [Group(keys[j], res)];
      n := n + |res|;
    }
    TrimmedGroupsLength(records, limit);
    assert trimmed == TrimmedGroups(records, limit)[..|keys|];
  }

  lemma TrimmedGroupsLength(records: seq<Hit>, limit: nat)
    ensures |TrimmedGroups(records, limit)| == |Doctypes(records)|
    ensures TrimmedGroups(records, limit)[..|Doctypes(records)|] == TrimmedGroups(records, limit)
  {
  }

  /** One round of the second loop appends the next group of the spec. */
  lemma TrimStep(records: seq<Hit>, limit: nat, j: nat)
    requires j < |Doctypes(records)|
    ensures TrimmedGroups(records, limit)[..j + 1] == TrimmedGroups(records, limit)[..j]
      + [Group(Doctypes(records)[j], Take(OfDoctype(records, Doctypes(records)[j]), limit))]
  {
    var spec := TrimmedGroups(records, limit);
    assert spec[..j + 1] == spec[..j] + [spec[j]];
  }
}
