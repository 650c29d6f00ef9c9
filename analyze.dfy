/**
 * The `/analyze` request handler without its transport: normalise the
 * number, query the search provider, filter and clean the results, stop early
 * when nothing qualifies, otherwise build the prompt, ask the language model
 * and assemble the response with its caps.
 *
 * The two providers are parameters: `search` maps the query to the payload,
 * `complete` maps the prompt to the reply's `choices[0].message.content`, or to
 * `None` when the reply lacks it (the request then aborts).
 */
module Analysis {
  import opened Wrappers
  import opened Strings
  import opened Script
  import opened Phone
  import opened Results
  import opened Prompting

  /** The search provider's reply; an absent list is empty. */
  datatype SearchPayload = SearchPayload(organic: seq<Record>, peopleAlsoAsk: seq<Record>)

  /** The JSON object returned to the client. */
  datatype Response = Response(phoneNumber: string, summary: string,
                               foundInformation: seq<Info>, sources: seq<string>)

  /** Why a request ends without a response. */
  datatype Failure = MalformedReply

  /** How many entries `found_information` and `sources` return at most. */
  const FoundLimit: nat := 6
  const SourceLimit: nat := 5

  /** The handler. When no result qualifies, the fixed summary comes back with
      empty lists and no prompt is sent. Otherwise exactly one prompt is sent,
      built from the context lines of the kept results, and the response holds
      the stripped reply, the first six entries and the first five organic
      links. */
  method Analyze(rawPhone: string, search: string -> SearchPayload, isAlpha: char -> bool,
                 complete: string -> Option<string>)
    returns (res: Result<Response, Failure>, query: string, prompt: Option<string>)
    ensures query == Query(Normalize(rawPhone), LocalVariant(Normalize(rawPhone)))
    ensures var phone := Normalize(rawPhone);
      var organic := Kept(search(query).organic, OrganicLimit, isAlpha);
      var people := Kept(search(query).peopleAlsoAsk, QuestionLimit, isAlpha);
      var found := FoundInformation(organic, people);
      var sources := Links(organic);
      if organic == [] && people == [] then
        prompt == None && res == Success(Response(phone, NoInfoSummary, [], []))
      else
        && prompt == Some(Prompt(JoinLines(ContextLines(found))))
        && res == match complete(prompt.value)
             case None => Failure(MalformedReply)
             case Some(content) =>
               Success(Response(phone, Strip(content), found[..Min(FoundLimit, |found|)],
                                sources[..Min(SourceLimit, |sources|)]))
  {
    var phone := Normalize(rawPhone);
    var local8 := LocalVariant(phone);
    query := Query(phone, local8);
    var serp := search(query);

    var organic := FilterAndClean(serp.organic, OrganicLimit, isAlpha);
    var people := FilterAndClean(serp.peopleAlsoAsk, QuestionLimit, isAlpha);

    if organic == [] && people == [] {
      res, prompt := Success(Response(phone, NoInfoSummary, [], [])), None;
      return;
    }

    var found, lines := AssembleFound(organic, people);
    assert lines == ContextLines(found);
    var context := JoinLines(lines);
    // The `if context:` guard of the handler always holds here.
    ContextNonEmpty(found);

    prompt := Some(Prompt(context));
    var reply := complete(prompt.value);
    if reply.None? {
      res := Failure(MalformedReply);
      return;
    }
    var summary := Strip(reply.value);
    var sources := Links(organic);
    res := Success(Response(phone, summary, found[..Min(FoundLimit, |found|)],
                            sources[..Min(SourceLimit, |sources|)]));
  }

  /** Past the short-circuit, the prompt is the instructions, a newline and the
      context verbatim: the last context line ends with a cleaned snippet, whose
      last character is Cyrillic. */
  lemma PromptCarriesContext(organicAll: seq<Record>, peopleAll: seq<Record>, isAlpha: char -> bool)
    requires Kept(organicAll, OrganicLimit, isAlpha) != [] || Kept(peopleAll, QuestionLimit, isAlpha) != []
    ensures var found := FoundInformation(Kept(organicAll, OrganicLimit, isAlpha), Kept(peopleAll, QuestionLimit, isAlpha));
      var context := JoinLines(ContextLines(found));
      Prompt(context) == PromptInstructions + "\n" + context
  {
    var found := FoundInformation(Kept(organicAll, OrganicLimit, isAlpha), Kept(peopleAll, QuestionLimit, isAlpha));
    FoundSnippetsClean(organicAll, peopleAll, isAlpha);
    ContextEndsClean(found);
    PromptShape(JoinLines(ContextLines(found)));
  }

  /** A context whose last entry has a clean snippet ends in a Cyrillic
      character, so not in whitespace. */
  lemma ContextEndsClean(found: seq<Info>)
    requires found != [] && IsCleanSnippet(found[|found| - 1].snippet)
    ensures var context := JoinLines(ContextLines(found));
      context != [] && !IsWhitespace(context[|context| - 1])
  {
    var lines := ContextLines(found);
    var item := found[|found| - 1];
    var last := lines[|lines| - 1];
    assert last == "- " + item.title + " | " + item.snippet;
    assert last[|last| - 1] == item.snippet[|item.snippet| - 1];
    CyrillicIsNotWhitespace(last[|last| - 1]);
    JoinLinesShape(lines);
    var context := JoinLines(lines);
    assert context[|context| - 1] == last[|last| - 1];
  }

  /** The `found_info` entry of a kept record: organic, or a related question
      when `asQuestion` holds. */
  function Entry(r: Record, asQuestion: bool): Info {
    if asQuestion then QuestionInfo(r) else OrganicInfo(r)
  }

  /** `e` is the entry of a record of `all` that passed the filter, with its
      snippet cleaned. */
  ghost predicate FromFiltered(e: Info, all: seq<Record>, asQuestion: bool, isAlpha: char -> bool) {
    exists p :: 0 <= p < |all| && Qualifies(all[p], isAlpha) && e == Entry(Cleaned(all[p]), asQuestion)
  }

  /** Each kept record of one list yields the entry of a record of that list
      that passed the filter. */
  lemma KeptEntriesFromFiltered(all: seq<Record>, limit: nat, asQuestion: bool, isAlpha: char -> bool)
    ensures var kept := Kept(all, limit, isAlpha);
      forall k :: 0 <= k < |kept| ==> FromFiltered(Entry(kept[k], asQuestion), all, asQuestion, isAlpha)
  {
    var kept := Kept(all, limit, isAlpha);
    var idx := KeptIsCappedSubsequence(all, limit, isAlpha);
    forall k | 0 <= k < |kept| ensures FromFiltered(Entry(kept[k], asQuestion), all, asQuestion, isAlpha) {
      assert kept[k] == Cleaned(all[idx[k]]);
    }
  }

  /** Every entry of `found_information` comes from a record that passed the
      filter, with its snippet cleaned: the organic entries from `organic`, the
      rest, titled by their question, from `peopleAlsoAsk`. */
  lemma FoundEntriesPassedFilter(organicAll: seq<Record>, peopleAll: seq<Record>, isAlpha: char -> bool)
    ensures var organic := Kept(organicAll, OrganicLimit, isAlpha);
      var found := FoundInformation(organic, Kept(peopleAll, QuestionLimit, isAlpha));
      && (forall k :: 0 <= k < |organic| ==> FromFiltered(found[k], organicAll, false, isAlpha))
      && (forall k :: |organic| <= k < |found| ==> FromFiltered(found[k], peopleAll, true, isAlpha))
  {
    KeptEntriesFromFiltered(organicAll, OrganicLimit, false, isAlpha);
    KeptEntriesFromFiltered(peopleAll, QuestionLimit, true, isAlpha);
    FoundFromEntries(Kept(organicAll, OrganicLimit, isAlpha), Kept(peopleAll, QuestionLimit, isAlpha), organicAll, peopleAll, isAlpha);
  }

  /** `found_info` lays the entries of the two lists side by side, so where
      each list's entries come from carries over to `found_info`. */
  lemma FoundFromEntries(organic: seq<Record>, people: seq<Record>, organicAll: seq<Record>, peopleAll: seq<Record>, isAlpha: char -> bool)
    requires forall k :: 0 <= k < |organic| ==> FromFiltered(Entry(organic[k], false), organicAll, false, isAlpha)
    requires forall k :: 0 <= k < |people| ==> FromFiltered(Entry(people[k], true), peopleAll, true, isAlpha)
    ensures var found := FoundInformation(organic, people);
      && (forall k :: 0 <= k < |organic| ==> FromFiltered(found[k], organicAll, false, isAlpha))
      && (forall k :: |organic| <= k < |found| ==> FromFiltered(found[k], peopleAll, true, isAlpha))
  {
    var found := FoundInformation(organic, people);
    forall k | 0 <= k < |organic| ensures FromFiltered(found[k], organicAll, false, isAlpha) {
      assert found[k] == Entry(organic[k], false);
    }
    forall k | |organic| <= k < |found| ensures FromFiltered(found[k], peopleAll, true, isAlpha) {
      assert found[k] == Entry(people[k - |organic|], true);
    }
  }

  /** Every entry of `found_information` has a cleaned snippet: non-empty,
      led by a Cyrillic character, Cyrillic characters and spaces only. */
  lemma FoundSnippetsClean(organicAll: seq<Record>, peopleAll: seq<Record>, isAlpha: char -> bool)
    ensures var found := FoundInformation(Kept(organicAll, OrganicLimit, isAlpha), Kept(peopleAll, QuestionLimit, isAlpha));
      forall k :: 0 <= k < |found| ==> IsCleanSnippet(found[k].snippet)
  {
    var organic, people := Kept(organicAll, OrganicLimit, isAlpha), Kept(peopleAll, QuestionLimit, isAlpha);
    var found := FoundInformation(organic, people);
    KeptSnippets(organicAll, OrganicLimit, isAlpha);
    KeptSnippets(peopleAll, QuestionLimit, isAlpha);
    forall k | 0 <= k < |found| ensures IsCleanSnippet(found[k].snippet) {
      if k < |organic| {
        assert found[k].snippet == organic[k].snippet.value;
      } else {
        assert found[k].snippet == people[k - |organic|].snippet.value;
      }
    }
  }

  /** Every source is the non-empty link of an organic record that passed the
      filter; related questions never contribute a source. */
  lemma SourcesFromQualifyingOrganic(organicAll: seq<Record>, isAlpha: char -> bool)
    ensures forall l :: l in Links(Kept(organicAll, OrganicLimit, isAlpha)) ==>
      l != [] && exists p :: 0 <= p < |organicAll| && Qualifies(organicAll[p], isAlpha) && organicAll[p].link == Some(l)
  {
    var organic := Kept(organicAll, OrganicLimit, isAlpha);
    var idx := KeptIsCappedSubsequence(organicAll, OrganicLimit, isAlpha);
    LinksExactly(organic);
    forall l | l in Links(organic)
      ensures l != [] && exists p :: 0 <= p < |organicAll| && Qualifies(organicAll[p], isAlpha) && organicAll[p].link == Some(l)
    {
      var k :| 0 <= k < |organic| && organic[k].link == Some(l);
      var p := idx[k];
      assert organic[k] == Cleaned(organicAll[p]);
    }
  }
}
