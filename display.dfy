/** How the client shows one result (search.js:60-64): a link titled with
    the highlighted title, or the plain title when that is empty, over the
    highlighted content with every `|||` field separator shown as ` · `. */
module Display {
  import opened Common
  import opened Records

  /** The separator the synchronizer puts between content fields. */
  const Separator: string := "|||"

  /** What the client shows between content fields. */
  const Dot: string := " · "

  /** `s.replaceAll(pat, rep)` for a non-empty pattern: occurrences are
      replaced left to right, and scanning resumes after each one. */
  function ReplaceAll(s: string, pat: string, rep: string): string
    requires |pat| > 0
    decreases |s|
  {
    if |s| < |pat| then s
    else if s[..|pat|] == pat then rep + ReplaceAll(s[|pat|..], pat, rep)
    else [s[0]] + ReplaceAll(s[1..], pat, rep)
  }

  /** Text without the pattern's first character passes through unchanged
      ahead of whatever follows it. */
  lemma {:induction false} ReplaceAllSkipsPrefix(a: string, t: string, pat: string, rep: string)
    requires |pat| > 0 && pat[0] !in a
    ensures ReplaceAll(a + t, pat, rep) == a + ReplaceAll(t, pat, rep)
    decreases |a|
  {
    if a != [] {
      var s := a + t;
      if |s| < |pat| {
        assert s[|a|..] == t;
        assert ReplaceAll(t, pat, rep) == t;
      } else {
        assert s[0] == a[0] != pat[0];
        assert s[1..] == a[1..] + t;
        ReplaceAllSkipsPrefix(a[1..], t, pat, rep);
      }
    } else {
      assert a + t == t;
    }
  }

  /** Content fields free of `|` show exactly as the same fields joined with
      ` · `: every separator is rewritten and nothing else is touched. */
  lemma {:induction false} ShowsSeparatorsAsDots(parts: seq<string>)
    requires forall i :: 0 <= i < |parts| ==> '|' !in parts[i]
    ensures ReplaceAll(Join(Separator, parts), Separator, Dot) == Join(Dot, parts)
  {
    if |parts| == 1 {
      ReplaceAllSkipsPrefix(parts[0], [], Separator, Dot);
      assert parts[0] + [] == parts[0];
    } else if |parts| > 1 {
      var tail := Join(Separator, parts[1..]);
      ShowsSeparatorsAsDots(parts[1..]);
      assert Join(Separator, parts) == parts[0] + (Separator + tail);
      ReplaceAllSkipsPrefix(parts[0], Separator + tail, Separator, Dot);
      var s := Separator + tail;
      assert s[..3] == Separator && s[3..] == tail;
      assert parts[0] + Dot + Join(Dot, parts[1..]) == parts[0] + (Dot + Join(Dot, parts[1..]));
    }
  }

  /** A rewritten string starting with `|` came from one starting with `|`
      that was kept as it was. */
  lemma BarIsKept(t: string)
    requires |ReplaceAll(t, Separator, Dot)| > 0 && ReplaceAll(t, Separator, Dot)[0] == '|'
    ensures |t| > 0 && t[0] == '|'
    ensures ReplaceAll(t, Separator, Dot) == (if |t| < 3 then t else [t[0]] + ReplaceAll(t[1..], Separator, Dot))
  {
  }

  /** A separator starts at position `i` of `r`. */
  predicate SeparatorAt(r: string, i: int) {
    0 <= i && i + 3 <= |r| && r[i..i + 3] == Separator
  }

  /** After the rewrite no `|||` is left. */
  lemma {:induction false} NoSeparatorLeft(s: string)
    ensures forall i :: !SeparatorAt(ReplaceAll(s, Separator, Dot), i)
    decreases |s|
  {
    var r := ReplaceAll(s, Separator, Dot);
    if |s| < 3 {
    } else if s[..3] == Separator {
      var rest := ReplaceAll(s[3..], Separator, Dot);
      NoSeparatorLeft(s[3..]);
      assert r == Dot + rest;
      forall i | 0 <= i < 3
        ensures !SeparatorAt(r, i)
      {
        assert r[i] == Dot[i];
      }
      forall i | 3 <= i
        ensures !SeparatorAt(r, i)
      {
        if i + 3 <= |r| {
          assert r[i..i + 3] == rest[i - 3..i];
          assert !SeparatorAt(rest, i - 3);
        }
      }
    } else {
      var rest := ReplaceAll(s[1..], Separator, Dot);
      NoSeparatorLeft(s[1..]);
      assert r == [s[0]] + rest;
      forall i | 1 <= i
        ensures !SeparatorAt(r, i)
      {
        if i + 3 <= |r| {
          assert r[i..i + 3] == rest[i - 1..i + 2];
          assert !SeparatorAt(rest, i - 1);
        }
      }
      SeparatorNotAtStart(s, rest);
    }
  }

  lemma SeparatorNotAtStart(s: string, rest: string)
    requires |s| >= 3 && s[..3] != Separator
    requires rest == ReplaceAll(s[1..], Separator, Dot)
    requires ReplaceAll(s, Separator, Dot) == [s[0]] + rest
    ensures !SeparatorAt(ReplaceAll(s, Separator, Dot), 0)
  {
    if s[0] == '|' && |rest| >= 2 && rest[0] == '|' && rest[1] == '|' {
      var t := s[1..];
      BarIsKept(t);
      if |t| >= 3 {
        var rest2 := ReplaceAll(t[1..], Separator, Dot);
        assert rest2[0] == '|';
        BarIsKept(t[1..]);
      }
      assert false;
    }
  }

  /** The title the client links: the highlighted title, or the plain title
      when the highlighted one is empty. */
  function ShownTitle(r: DocView): (t: string)
    ensures r.highlightedTitle != "" ==> t == r.highlightedTitle
    ensures r.highlightedTitle == "" ==> t == r.title
  {
    if r.highlightedTitle != "" then r.highlightedTitle else r.title
  }

  /** `showResult(record)`. */
  function ShowResult(r: DocView): string {
    "<div><a href=\"" + r.url + "\">" + ShownTitle(r) + "</a><br><p>"
      + ReplaceAll(r.highlightedContent, Separator, Dot) + "</p></div>"
  }

  /** A result whose highlighted content is `|`-free fields joined with
      `|||` shows those fields joined with ` · `, under its shown title. */
  lemma ShowResultOfFields(r: DocView, parts: seq<string>)
    requires r.highlightedContent == Join(Separator, parts)
    requires forall i :: 0 <= i < |parts| ==> '|' !in parts[i]
    ensures ShowResult(r) == "<div><a href=\"" + r.url + "\">" + ShownTitle(r) + "</a><br><p>"
      + Join(Dot, parts) + "</p></div>"
  {
    ShowsSeparatorsAsDots(parts);
  }
}
