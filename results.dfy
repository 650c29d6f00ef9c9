/**
 * The middle of `analyze`: keep the search results whose snippet is
 * predominantly Cyrillic, cap and clean them, and assemble `found_info`, the
 * context lines of the prompt and the source links.
 */
module Results {
  import opened Wrappers
  import opened Strings
  import opened Script

  /** One entry of the payload's `organic` or `peopleAlsoAsk` list; a key the
      JSON object does not have is `None`. */
  datatype Record = Record(title: Option<string>, question: Option<string>,
                           snippet: Option<string>, link: Option<string>)

  /** One entry of `found_information`. */
  datatype Info = Info(title: string, snippet: string, link: string)

  /** How many organic results and how many related questions enter the prompt. */
  const OrganicLimit: nat := 10
  const QuestionLimit: nat := 6

  function Min(a: nat, b: nat): nat {
    if a <= b then a else b
  }

  /** The filter condition: a present, non-empty snippet that passes
      `IsStrictMongolian`. */
  predicate Qualifies(r: Record, isAlpha: char -> bool) {
    r.snippet.Some? && r.snippet.value != [] && IsStrictMongolian(r.snippet.value, isAlpha)
  }

  /** The records of `s` that qualify, in order (the list comprehension before
      its slice). */
  function Qualifying(s: seq<Record>, isAlpha: char -> bool): (r: seq<Record>)
    ensures |r| <= |s|
    ensures forall k :: 0 <= k < |r| ==> Qualifies(r[k], isAlpha)
    decreases |s|
  {
    if s == [] then []
    else
      var last := s[|s| - 1];
      Qualifying(s[..|s| - 1], isAlpha) + (if Qualifies(last, isAlpha) then [last] else [])
  }

  /** The positions in `s` of the qualifying records. */
  ghost function QualifyingPositions(s: seq<Record>, isAlpha: char -> bool): seq<nat>
    decreases |s|
  {
    if s == [] then []
    else
      QualifyingPositions(s[..|s| - 1], isAlpha)
      + (if Qualifies(s[|s| - 1], isAlpha) then [|s| - 1] else [])
  }

  /** `a` is `b` restricted to the strictly increasing positions `idx`. */
  ghost predicate OrderedEmbedding(a: seq<Record>, b: seq<Record>, idx: seq<nat>) {
    && |idx| == |a|
    && (forall k :: 0 <= k < |idx| ==> idx[k] < |b| && a[k] == b[idx[k]])
    && (forall k, l :: 0 <= k < l < |idx| ==> idx[k] < idx[l])
  }

  /** The qualifying records are the input at the qualifying positions, in
      order, and every qualifying position is among them. */
  lemma {:induction false} QualifyingEmbeds(s: seq<Record>, isAlpha: char -> bool)
    ensures OrderedEmbedding(Qualifying(s, isAlpha), s, QualifyingPositions(s, isAlpha))
    ensures forall p :: 0 <= p < |s| && Qualifies(s[p], isAlpha) ==> p in QualifyingPositions(s, isAlpha)
    decreases |s|
  {
    if s != [] {
      var init := s[..|s| - 1];
      QualifyingEmbeds(init, isAlpha);
      var idx := QualifyingPositions(init, isAlpha);
      assert forall k :: 0 <= k < |idx| ==> idx[k] < |init|;
    }
  }

  /** The cleaned record: the snippet rewritten by the cleaner, all else as it was. */
  function Cleaned(r: Record): (c: Record)
    requires r.snippet.Some?
    ensures c.title == r.title && c.question == r.question && c.link == r.link
    ensures c.snippet.Some? && |c.snippet.value| <= |r.snippet.value|
  {
    r.(snippet := Some(ExtractMongolianText(r.snippet.value)))
  }

  /** The selected records of one list, capped at `limit` and cleaned. */
  function Kept(all: seq<Record>, limit: nat, isAlpha: char -> bool): (r: seq<Record>)
    ensures |r| <= limit && |r| <= |all|
  {
    var q := Qualifying(all, isAlpha);
    var capped := q[..Min(limit, |q|)];
    seq(|capped|, k requires 0 <= k < |capped| => Cleaned(capped[k]))
  }

  /** The comprehension with its slice: the first `limit` qualifying records. */
  method SelectQualifying(all: seq<Record>, limit: nat, isAlpha: char -> bool) returns (kept: seq<Record>)
    ensures var q := Qualifying(all, isAlpha); kept == q[..Min(limit, |q|)]
  {
    var acc: seq<Record> := [];
    var i := 0;
    while i < |all|
      invariant 0 <= i <= |all|
      invariant acc == Qualifying(all[..i], isAlpha)
    {
      assert all[..i + 1][..i] == all[..i];
      if Qualifies(all[i], isAlpha) {
        acc := acc + [all[i]];
      }
      i := i + 1;
    }
    assert all[..|all|] == all;
    kept := acc[..Min(limit, |acc|)];
  }

  /** The `for r in organic: r['snippet'] = extract_mongolian_text(r['snippet'])`
      loop: each record's snippet is rewritten in place. */
  method CleanSnippets(a: array<Record>)
    requires forall k :: 0 <= k < a.Length ==> a[k].snippet.Some?
    modifies a
    ensures forall k :: 0 <= k < a.Length ==> a[k] == Cleaned(old(a[k]))
  {
    var i := 0;
    while i < a.Length
      invariant 0 <= i <= a.Length
      invariant forall k :: 0 <= k < i ==> a[k] == Cleaned(old(a[k]))
      invariant forall k :: i <= k < a.Length ==> a[k] == old(a[k])
    {
      a[i] := Cleaned(a[i]);
      i := i + 1;
    }
  }

  /** Filter, cap and clean one result list. */
  method FilterAndClean(all: seq<Record>, limit: nat, isAlpha: char -> bool) returns (kept: seq<Record>)
    ensures kept == Kept(all, limit, isAlpha)
  {
    var selected := SelectQualifying(all, limit, isAlpha);
    var a := new Record[|selected|](k requires 0 <= k < |selected| => selected[k]);
    CleanSnippets(a);
    kept := a[..];
  }

  /** What the selection keeps: at most `limit` records and no more than there
      are qualifying ones; each is the cleaned form of a qualifying input record,
      taken in input order at the positions `idx`; no qualifying record is
      skipped before the last one kept; and when the cap does not bite, every
      qualifying record is kept. */
  lemma KeptIsCappedSubsequence(all: seq<Record>, limit: nat, isAlpha: char -> bool) returns (idx: seq<nat>)
    ensures var kept := Kept(all, limit, isAlpha);
      && |kept| == Min(limit, |Qualifying(all, isAlpha)|)
      && |idx| == |kept|
      && (forall k, l :: 0 <= k < l < |idx| ==> idx[k] < idx[l])
      && (forall k :: 0 <= k < |idx| ==>
            idx[k] < |all| && Qualifies(all[idx[k]], isAlpha) && kept[k] == Cleaned(all[idx[k]]))
      && (forall k, p :: 0 <= k < |idx| && 0 <= p < idx[k] && Qualifies(all[p], isAlpha) ==> p in idx)
      && (|Qualifying(all, isAlpha)| <= limit ==>
            forall p :: 0 <= p < |all| && Qualifies(all[p], isAlpha) ==> p in idx)
  {
    var q := Qualifying(all, isAlpha);
    var pos := QualifyingPositions(all, isAlpha);
    QualifyingEmbeds(all, isAlpha);
    var m := Min(limit, |q|);
    idx := pos[..m];
    forall k, p | 0 <= k < |idx| && 0 <= p < idx[k] && Qualifies(all[p], isAlpha)
      ensures p in idx
    {
      var j :| 0 <= j < |pos| && pos[j] == p;
      assert j < k;
      assert idx[j] == p;
    }
  }

  /** A qualifying record cleans to a record with a clean snippet. */
  lemma CleanedQualifying(r: Record, isAlpha: char -> bool)
    requires Qualifies(r, isAlpha)
    ensures Cleaned(r).snippet.Some? && IsCleanSnippet(Cleaned(r).snippet.value)
  {
    var s := r.snippet.value;
    assert CountCyrillic(s) > 0;
    CleanedNonEmpty(s);
  }

  /** Every kept snippet is present, non-empty and starts with a Cyrillic
      character, holds only Cyrillic characters and spaces, and has no space
      at either end. */
  lemma KeptSnippets(all: seq<Record>, limit: nat, isAlpha: char -> bool)
    ensures var kept := Kept(all, limit, isAlpha);
      forall k :: 0 <= k < |kept| ==>
        kept[k].snippet.Some? && IsCleanSnippet(kept[k].snippet.value)
  {
    var kept := Kept(all, limit, isAlpha);
    var q := Qualifying(all, isAlpha);
    forall k | 0 <= k < |kept| ensures kept[k].snippet.Some? && IsCleanSnippet(kept[k].snippet.value) {
      assert kept[k] == Cleaned(q[k]);
      CleanedQualifying(q[k], isAlpha);
    }
  }

  /** Nothing is kept exactly when no record qualifies (the cap is positive). */
  lemma KeptEmptyIff(all: seq<Record>, limit: nat, isAlpha: char -> bool)
    requires limit > 0
    ensures Kept(all, limit, isAlpha) == [] <==> forall p :: 0 <= p < |all| ==> !Qualifies(all[p], isAlpha)
  {
    QualifyingEmbeds(all, isAlpha);
    var q := Qualifying(all, isAlpha);
    if q != [] {
      var pos := QualifyingPositions(all, isAlpha);
      assert Qualifies(all[pos[0]], isAlpha);
    }
  }

  /** The `found_info` entry of an organic result. */
  function OrganicInfo(r: Record): Info {
    Info(r.title.GetOr(""), r.snippet.GetOr(""), r.link.GetOr(""))
  }

  /** The `found_info` entry of a related question: its title is the question. */
  function QuestionInfo(p: Record): Info {
    Info(p.question.GetOr(""), p.snippet.GetOr(""), p.link.GetOr(""))
  }

  /** `found_info` before the response cap: the organic entries, then the
      related-question entries, each list in its own order. */
  function FoundInformation(organic: seq<Record>, people: seq<Record>): (r: seq<Info>)
    ensures |r| == |organic| + |people|
    ensures forall k :: 0 <= k < |organic| ==> r[k] == OrganicInfo(organic[k])
    ensures forall k :: 0 <= k < |people| ==> r[|organic| + k] == QuestionInfo(people[k])
  {
    seq(|organic|, k requires 0 <= k < |organic| => OrganicInfo(organic[k]))
    + seq(|people|, k requires 0 <= k < |people| => QuestionInfo(people[k]))
  }

  /** The context line `- title | snippet` of one entry. */
  function ContextLine(item: Info): string {
    "- " + item.title + " | " + item.snippet
  }

  /** One context line per entry, in order. */
  function ContextLines(found: seq<Info>): (lines: seq<string>)
  {
    seq(|found|, k requires 0 <= k < |found| => ContextLine(found[k]))
  }

  /** The two `append` loops: one entry and one context line per kept record,
      organic records first. */
  method AssembleFound(organic: seq<Record>, people: seq<Record>) returns (found: seq<Info>, lines: seq<string>)
    ensures found == FoundInformation(organic, people)
    ensures |lines| == |found| && forall k :: 0 <= k < |found| ==> lines[k] == ContextLine(found[k])
  {
    found, lines := [], [];
    for i := 0 to |organic|
      invariant |found| == |lines| == i
      invariant forall k :: 0 <= k < i ==> found[k] == OrganicInfo(organic[k])
      invariant forall k :: 0 <= k < i ==> lines[k] == ContextLine(found[k])
    {
      var item := OrganicInfo(organic[i]);
      found := found + [item];
      lines := lines + [ContextLine(item)];
    }
    for j := 0 to |people|
      invariant |found| == |lines| == |organic| + j
      invariant forall k :: 0 <= k < |organic| ==> found[k] == OrganicInfo(organic[k])
      invariant forall k :: 0 <= k < j ==> found[|organic| + k] == QuestionInfo(people[k])
      invariant forall k :: 0 <= k < |found| ==> lines[k] == ContextLine(found[k])
    {
      var item := QuestionInfo(people[j]);
      found := found + [item];
      lines := lines + [ContextLine(item)];
    }
  }

  /** The prompt context is never empty once an entry exists, so the
      `if context:` guard always holds past the short-circuit. */
  lemma ContextNonEmpty(found: seq<Info>)
    requires found != []
    ensures JoinLines(ContextLines(found)) != []
  {
    var lines := ContextLines(found);
    JoinLinesShape(lines);
    assert lines[0][..2] == "- ";
  }

  /** The context can be read back line by line when no title holds a newline
      (cleaned snippets never do). */
  lemma ContextReadsBack(organic: seq<Record>, people: seq<Record>)
    requires organic != [] || people != []
    requires forall k :: 0 <= k < |organic| ==> organic[k].snippet.Some? && IsCleanSnippet(organic[k].snippet.value)
    requires forall k :: 0 <= k < |people| ==> people[k].snippet.Some? && IsCleanSnippet(people[k].snippet.value)
    requires forall k :: 0 <= k < |organic| ==> '\n' !in organic[k].title.GetOr("")
    requires forall k :: 0 <= k < |people| ==> '\n' !in people[k].question.GetOr("")
    ensures SplitLines(JoinLines(ContextLines(FoundInformation(organic, people))))
         == ContextLines(FoundInformation(organic, people))
  {
    var found := FoundInformation(organic, people);
    var lines := ContextLines(found);
    forall k | 0 <= k < |lines| ensures '\n' !in lines[k] {
      var item := found[k];
      assert '\n' !in item.title;
      assert forall c :: c in item.snippet ==> IsCyrillic(c) || c == ' ';
      assert lines[k] == "- " + item.title + " | " + item.snippet;
    }
    SplitJoinRoundTrip(lines);
  }

  /** `sources`: the non-empty `link` values of the given (organic) records, in order. */
  function Links(organic: seq<Record>): (r: seq<string>)
    ensures |r| <= |organic|
    ensures forall k :: 0 <= k < |r| ==> r[k] != []
    decreases |organic|
  {
    if organic == [] then []
    else
      var last := organic[|organic| - 1];
      Links(organic[..|organic| - 1])
      + (if last.link.Some? && last.link.value != [] then [last.link.value] else [])
  }

  /** Every source is the link of one of the records, and every non-empty link
      of the records is a source. */
  lemma {:induction false} LinksExactly(organic: seq<Record>)
    ensures forall l :: l in Links(organic) ==> exists k :: 0 <= k < |organic| && organic[k].link == Some(l)
    ensures forall k :: 0 <= k < |organic| && organic[k].link.Some? && organic[k].link.value != [] ==>
      organic[k].link.value in Links(organic)
    decreases |organic|
  {
    if organic != [] {
      var init := organic[..|organic| - 1];
      LinksExactly(init);
      forall l | l in Links(init) ensures exists k :: 0 <= k < |organic| && organic[k].link == Some(l) {
        var k :| 0 <= k < |init| && init[k].link == Some(l);
        assert organic[k] == init[k];
      }
    }
  }

  /** The sources are the records' non-empty links taken in record order, one
      per record: the links of the records at strictly increasing positions
      `idx`, and every record with a non-empty link is among them. */
  lemma {:induction false} LinksEmbeds(organic: seq<Record>) returns (idx: seq<nat>)
    ensures |idx| == |Links(organic)|
    ensures forall k :: 0 <= k < |idx| ==> idx[k] < |organic| && organic[idx[k]].link == Some(Links(organic)[k])
    ensures forall k, l :: 0 <= k < l < |idx| ==> idx[k] < idx[l]
    ensures forall p :: 0 <= p < |organic| && organic[p].link.Some? && organic[p].link.value != [] ==> p in idx
    decreases |organic|
  {
    if organic == [] {
      idx := [];
    } else {
      var init := organic[..|organic| - 1];
      var last := organic[|organic| - 1];
      var before := LinksEmbeds(init);
      assert forall k :: 0 <= k < |before| ==> organic[before[k]] == init[before[k]];
      if last.link.Some? && last.link.value != [] {
        idx := before + [|organic| - 1];
      } else {
        idx := before;
      }
    }
  }
}
