# callerguard-backend: the `/analyze` request pipeline, modelled in Dafny

The backend in `server.py` takes a phone number and asks a web search provider for
pages that mention it. It keeps the result snippets written mostly in Cyrillic
and cleans them. Then it asks a language model for a two-to-three sentence
summary of who the number probably belongs to. Everything happens in one
handler, `analyze` in `server.py`. This project models the handler and the two
text heuristics it uses, without the two HTTP calls, and proves properties of
the model.

Modules (one per stage of the handler):

- `Wrappers` (`wrappers.dfy`): `Option` for absent JSON keys, `Result` for a request that aborts.
- `Strings` (`strings.dfy`): Python's `str.isspace`, `strip()`, `replace(x, "")` and `"\n".join`. It also defines `SplitLines`, a split on newlines that the handler never performs. It is the inverse used only by the round-trip lemmas `Strings.SplitJoinRoundTrip` and `Results.ContextReadsBack`.
- `Script` (`script.dfy`): `is_strict_mongolian` and `extract_mongolian_text`.
- `Phone` (`phone.dfy`): number normalisation, the local variant and the search query.
- `Results` (`results.dfy`): the filter, cap and in-place cleaning loops, `found_info`, the context lines and `sources`.
- `Prompting` (`prompt.dfy`): the prompt template and the fixed fallback summary.
- `Analysis` (`analyze.dfy`): the handler as one method, plus lemmas about its response.

The two providers are parameters of `Analysis.Analyze`:

- `search` maps the query string to the payload's `organic` and `peopleAlsoAsk` lists.
- `complete` maps the prompt to the reply's `choices[0].message.content`. It returns `None` when the reply lacks that path, and the request then aborts (`Failure(MalformedReply)`).

Python's `str.isalpha` becomes the parameter `isAlpha`. Nothing is assumed about it: the Cyrillic block U+0400..U+04FF contains non-letters such as U+0482..U+0489, so the Cyrillic count may exceed the alphabetic count. The method also returns the query it searched for and the prompt it built, if any. When nothing qualifies, the contract fixes the response and gives no prompt, so that response does not depend on `complete`. (`complete` is a plain function, so calling it is not itself observable in the model.)

The script test `mongolian / alpha >= 0.7` is written as `10 * cyr >= 7 * alpha` with `alpha > 0`, so the exact 70% boundary passes.

## Model

| member | source | states |
|---|---|---|
| `Strings.IsWhitespace` | server.py:34 | the characters Python's `str.isspace` accepts, which every `strip()` in the handler removes: U+0009..U+000D, U+001C..U+001F, the space, U+0085, U+00A0, U+1680, U+2000..U+200A, U+2028, U+2029, U+202F, U+205F and U+3000 |
| `Strings.StripRight` | server.py:34 | the result is a prefix of the input; only whitespace was dropped, and the result does not end in whitespace |
| `Strings.Strip` | server.py:34 | `strip()`: the result is no longer than the input, and neither end of it is whitespace |
| `Strings.StripIsSlice` | server.py:34 | `strip()` returns a slice `s[i..j]` of its input, and everything outside the slice is whitespace |
| `Strings.StripEmptyIff` | server.py:34 | `strip()` returns the empty text exactly when the input is all whitespace |
| `Strings.StripNoop` | server.py:138 | a text with no whitespace at either end is returned unchanged |
| `Strings.StripFramed` | server.py:112-123 | stripping `"\n" + head + "\n" + tail + "\n"` removes only the two framing newlines when `head` starts and `tail` ends with non-whitespace |
| `Strings.RemoveChar` | server.py:38 | `replace(x, "")` leaves no `x`; every other character keeps its number of occurrences; nothing grows |
| `Strings.RemoveCharConcat` | server.py:38 | deleting a character distributes over concatenation, so the surviving characters keep their order |
| `Strings.JoinLines` | server.py:102 | `"\n".join(lines)`: the lines in order with one newline between neighbours and none at either end |
| `Strings.SplitJoinRoundTrip` | server.py:102 | `"\n".join` is undone by splitting on newlines when no line holds a newline |
| `Strings.JoinLinesShape` | server.py:102 | the joined context starts with the first line and ends with the last line; its length is the lines' total plus one separator per gap |
| `Script.CountCyrillic` | server.py:28 | the Cyrillic-block count is at most the text length |
| `Script.CountAlpha` | server.py:29 | the alphabetic count is at most the text length |
| `Script.IsStrictMongolian` | server.py:26-30 | no alphabetic characters means rejection; acceptance means at least one Cyrillic-block character |
| `Script.StrictMeansCeilSeventyPercent` | server.py:30 | with `a > 0` alphabetic characters, a text passes iff it has at least ceil(0.7·a) Cyrillic-block characters, so the 70% boundary is inclusive |
| `Script.AllCyrillicPasses` | server.py:28-30 | a text made only of Cyrillic-block characters with at least one alphabetic character passes |
| `Script.AppendCyrillicKeepsPassing` | server.py:28-30 | appending a Cyrillic-block character never turns a pass into a fail |
| `Script.SeventyPercentBoundary` | server.py:30 | seven Cyrillic letters against three Latin letters pass; six against three fail |
| `Script.CountConcat` | server.py:28-29 | both counts add up over concatenation |
| `Script.Mask` | server.py:34 | the character map keeps Cyrillic characters and spaces and turns every other character into a space, one for one |
| `Script.ExtractMongolianText` | server.py:33-34 | the cleaned snippet is no longer than the original |
| `Script.CleanedShape` | server.py:34 | the cleaned snippet holds only Cyrillic-block characters and spaces and has no space at either end |
| `Script.CleaningKeepsCyrillic` | server.py:34 | cleaning keeps every Cyrillic-block character of the snippet, in order |
| `Script.CleanedNonEmpty` | server.py:34 | a snippet with a Cyrillic-block character cleans to a non-empty text that starts with one |
| `Script.CleaningIdentity` | server.py:34 | cleaning is the identity on texts of Cyrillic-block characters and spaces with no space at either end |
| `Script.CleaningIdempotent` | server.py:34 | cleaning twice equals cleaning once |
| `Phone.Normalize` | server.py:38 | the normalised number holds no space and no hyphen; every other character of the trimmed input keeps its count; it is no longer than the input |
| `Phone.NormalizeJoinsGroups` | server.py:38 | a number written as three groups separated by spaces, or by hyphens, normalises to the groups run together |
| `Phone.LocalVariant` | server.py:39 | with the `+976` prefix the number is `+976` followed by the local variant; without it the local variant is the number itself |
| `Phone.LocalVariantClean` | server.py:38-39 | the local variant holds no space and no hyphen either |
| `Phone.Query` | server.py:40 | the query opens with the quoted number and closes with the quoted local form, with ` OR ` between them and nothing else |
| `Phone.QueryRoundTrip` | server.py:40 | reading the query `"<phone>" OR "<local>"` back yields exactly the phone and the local form when the phone holds no double quote |
| `Phone.QueryExample` | server.py:38-40 | the local form of `+97688112233` is `88112233`, and the query quotes both |
| `Results.Qualifies` | server.py:57 | the comprehension's test: the snippet key is present, the snippet is non-empty, and it passes `is_strict_mongolian` |
| `Results.Qualifying` | server.py:55-58 | the comprehension keeps only records whose snippet is present, non-empty and passes the script test, and never more than it was given |
| `Results.QualifyingEmbeds` | server.py:55-58 | the qualifying records are the input at strictly increasing positions, and every qualifying position is among them |
| `Results.SelectQualifying` | server.py:55-58 | the filtering loop followed by the slice returns the first `limit` qualifying records |
| `Results.Cleaned` | server.py:60 | the record with its snippet replaced by `extract_mongolian_text` of it; title, question and link are unchanged, and the snippet does not grow |
| `Results.CleanSnippets` | server.py:59-60 | the in-place loop replaces each record's snippet by its cleaned form and changes nothing else |
| `Results.Kept` | server.py:55-69 | one list's selected records: the qualifying records, cut to the first `limit`, each cleaned; never more than `limit` and never more than the input |
| `Results.FilterAndClean` | server.py:54-69 | filtering, capping and cleaning one list returns the kept records of the specification `Kept` |
| `Results.KeptIsCappedSubsequence` | server.py:54-69 | at most `limit` records are kept (10 organic, 6 questions); they are cleaned forms of qualifying input records in input order; no qualifying record is skipped before the last one kept; with no cap in effect, every qualifying record is kept |
| `Results.CleanedQualifying` | server.py:57-60 | a record that passed the filter gets a non-empty, Cyrillic-led clean snippet |
| `Results.KeptSnippets` | server.py:54-69 | every kept snippet is present, non-empty, starts with a Cyrillic-block character and holds only those and spaces |
| `Results.KeptEmptyIff` | server.py:72 | a list keeps nothing exactly when none of its records qualifies |
| `Results.OrganicInfo` | server.py:85-89 | the `found_info` entry of an organic record: its title, snippet and link, each `""` when absent |
| `Results.QuestionInfo` | server.py:94-98 | the `found_info` entry of a related question: the question as title, the snippet and the link, each `""` when absent |
| `Results.FoundInformation` | server.py:81-100 | `found_info` is one entry per organic record, then one per related question, whose title is the question |
| `Results.ContextLine` | server.py:91 | the context line of one entry, `- <title> \| <snippet>` (the same f-string at line 100) |
| `Results.AssembleFound` | server.py:81-100 | the two `append` loops build `found_info`, and one context line `- title \| snippet` per entry in the same order |
| `Results.ContextNonEmpty` | server.py:106 | the context is never empty once an entry exists, so the `if context:` guard always holds past the short-circuit |
| `Results.ContextReadsBack` | server.py:91-102 | when no title holds a newline, splitting the context gives back exactly one line per entry |
| `Results.Links` | server.py:140 | sources are non-empty and at most one per organic record |
| `Results.LinksExactly` | server.py:140 | every source is the link of one of the records, and every non-empty link is a source |
| `Results.LinksEmbeds` | server.py:140 | the sources are the non-empty links of the records at strictly increasing positions, in record order, one per record, and every record with a non-empty link contributes its link |
| `Prompting.Prompt` | server.py:112-123 | the prompt: the fixed instructions and the context, each on its own line inside the template, with `strip()` applied to the whole text |
| `Prompting.InstructionsStartClean` | server.py:112-113 | the instruction text starts with a non-whitespace character |
| `Prompting.PromptShape` | server.py:112-123 | after `strip()`, the prompt is the instructions, a newline and the context verbatim, when the context ends in non-whitespace |
| `Analysis.Analyze` | server.py:37-147 | the query names both forms of the normalised number. With nothing kept in either list: no prompt is sent, and the response is the number, the fixed fallback summary and two empty lists. Otherwise one prompt is sent, built from the context; a reply without content aborts; else the response holds the stripped reply, the first min(6, n) `found_info` entries and the first min(5, m) organic sources |
| `Analysis.PromptCarriesContext` | server.py:102-123 | past the short-circuit, the prompt sent is the instructions, a newline and the context verbatim |
| `Analysis.ContextEndsClean` | server.py:91-102 | a context whose last entry has a clean snippet ends in a non-whitespace character |
| `Analysis.KeptEntriesFromFiltered` | server.py:55-69 | each kept record of one list yields the entry of a record of that same list that passed the filter, with its snippet cleaned |
| `Analysis.FoundEntriesPassedFilter` | server.py:54-100 | each `found_info` entry built from the kept organic list is `OrganicInfo` of a cleaned organic input record that passed the filter, and each later entry is `QuestionInfo` of a cleaned `peopleAlsoAsk` record that passed it |
| `Analysis.FoundSnippetsClean` | server.py:54-100 | every `found_info` snippet is non-empty, starts with a Cyrillic-block character and holds only those and spaces |
| `Analysis.SourcesFromQualifyingOrganic` | server.py:140 | every source is the non-empty link of an organic record that passed the filter; related questions never contribute a source |

## Left out

- The FastAPI application, the `Req` model and the route (server.py:20-23, server.py:36): framework glue.
- Loading `key.env` and the missing-key `RuntimeError` (server.py:9-15): process configuration.
- The two `requests.post` calls, their timeouts, `raise_for_status` and JSON decoding (server.py:43-51, server.py:107-136). The search becomes the parameter `search`. The model reply becomes `complete`. A transport or HTTP failure of either call is not modelled; it would abort the request with an exception.
- The request body fields sent to the model (server.py:125-132): the model name, `max_tokens: 200` and `stream: False`. These fields shape the reply, which the model takes as the unconstrained function `complete`. Nothing is proved about the summary's length or wording.
- `Script.IsStrictMongolian`: the float comparison `cyr / alpha >= 0.7` is replaced by `10 * cyr >= 7 * alpha`. The two agree except for alphabetic counts far beyond any snippet length (around 10^15), where the float quotient can round across the boundary.
- `str.isalpha`: Unicode's letter tables are not modelled. The predicate is the parameter `isAlpha`.
- Lone surrogate code points: a `\uD8xx`-style escape in the request body or in either provider's JSON reply decodes to a lone surrogate, which Dafny's `char` (a Unicode scalar value) cannot represent. The model covers only payloads without one. Such a character is neither Cyrillic, whitespace nor alphabetic, so the cleaner would turn it into a space like any other non-Cyrillic character.
- `Results.Record`: JSON values that are not strings, such as a `null` title, are not modelled. Fields are strings or absent.
- `Results.CleanSnippets`: the Python loop mutates the dictionaries shared with `organic_all`. The model copies the selected records into a fresh array and cleans them there. `organic_all` is not read again, so nothing observable differs.
- `Analysis.Analyze`: the `if context:` guard (server.py:106) and the fallback assignment before it (server.py:105) are not written as a branch. `Results.ContextNonEmpty` proves that the guard always holds at that point.
- The literal prompt wording is kept as a constant, but nothing is proved about its contents beyond its first character.
