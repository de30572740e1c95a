# Kingshot gift-code announcer, modelled in Dafny

The announcer is one script, `scripts/fetch_codes.py`. Each run does five things:

1. It loads the set of codes already announced from `posted_codes.json`.
2. It fetches each configured web page and extracts the gift codes on it. A code matches `\b[A-Z0-9]{6,16}\b` in the upper-cased page text and is not one of six blacklisted words.
3. It computes the new codes as the sorted list of codes found anywhere that were not announced before.
4. If there are new codes, it posts one Discord webhook message listing them and naming the sources that reported them.
5. Only after that post succeeds, it saves the grown set back to the file as a sorted list.

The model follows the script's functions one module each:

| module | models |
|---|---|
| `Ascii` | the character classes `\w` and `[A-Z0-9]`, and `str.upper` |
| `StringOrder` | Python's string order, and `sorted` on a set of strings |
| `Lines` | `str.join`, and a split at a one-character separator that reads a message back as the lines a chat client shows (the script itself never splits) |
| `Extractor` | `extract_codes` |
| `Diff` | the `per_source` dictionary, the new-code list and `sources_hit` |
| `Notifier` | the message text and the outcome of `post` |
| `StateStore` | `load_state` and `save_state`, plus the state file as an object overwritten by each save |
| `Orchestrator` | `main` |
| `Scenarios` | worked runs: a failing source, a failing webhook, and the one-page end-to-end run |

How the extractor is modelled:

- Because every code character is a word character, `finditer` with this pattern reports exactly the maximal runs of word characters that are code-shaped.
- `Extractor.Scan` is that scanner. It is proved to report exactly the set of strings the pattern matches at some position of the text, `Extractor.Matches` (`Extractor.ScanFindsMatches`).

How `main` is modelled:

- `Orchestrator.Run` is imperative. It has the loop over the sources and a `StateStore.StateFile` object whose content it overwrites.
- Its contract ties the outcome and the new file content to the function `Orchestrator.RunSpec`. The run properties are proved as lemmas about `RunSpec`.

Inputs the script gets from outside become parameters:

- Fetching is a function from URL to `Fetched(text)` or `FetchFailed`.
- Webhook delivery is a boolean.
- The UTC time stamp is a string.
- The webhook URL and role id come in already trimmed, inside `Config`.

Two facts about the script that the model makes explicit:

- `Extractor.ExtractCodesExample` reads the sample announcement `Use code KS2024GIFT now! Also REDEEM here.` and proves it yields exactly `KS2024GIFT`, a code of 10 characters. `REDEEM` is dropped because it is blacklisted, and the other words are too short.
- The `mixed sources` fallback in `post` (`scripts/fetch_codes.py:47`) can never appear in a message `main` sends. `main` only posts when the new list is non-empty (`:72-77`), and every new code was found at some source, so the list of sources hit is never empty (`Diff.SomeSourceHitWhenNew`, used by `Orchestrator.RunWithDeliveredPost`).

## Model

| member | source | states |
|---|---|---|
| Ascii.IsWordChar | scripts/fetch_codes.py:17 | definition of the characters `\w` matches (ASCII letters, digits, `_`); `Ascii.UpperChar` proves upper-casing keeps this class |
| Ascii.IsCodeChar | scripts/fetch_codes.py:17 | definition of the class `[A-Z0-9]`; `Extractor.UpperOfCodeChars` proves such characters are fixed by upper-casing |
| Ascii.UpperChar | scripts/fetch_codes.py:37 | upper-casing one character: the result is never lower case, is a word character exactly when the input is, leaves non-lower-case characters alone and shifts a-z onto A-Z |
| Ascii.Upper | scripts/fetch_codes.py:37 | `text.upper()` keeps the length and upper-cases each character in place |
| Ascii.UpperIdempotent | scripts/fetch_codes.py:37 | upper-casing twice is the same as upper-casing once |
| StringOrder.Less | scripts/fetch_codes.py:70 | definition of Python's `<` on strings, code point by code point with a proper prefix first; `StringOrder.LessTotal` and `StringOrder.LessTransitive` prove it a strict total order |
| StringOrder.LessTotal | scripts/fetch_codes.py:70 | the string order `sorted` uses is total: of two different strings one is smaller |
| StringOrder.LessTransitive | scripts/fetch_codes.py:70 | the string order is transitive |
| StringOrder.SortSet | scripts/fetch_codes.py:70 | `sorted(set)` is strictly ascending, holds exactly the set's elements and has the set's size |
| StringOrder.SortSingleton | scripts/fetch_codes.py:70 | sorting a one-element set gives that element alone |
| Lines.Join | scripts/fetch_codes.py:46-47 | definition of `sep.join`; `Lines.SplitJoin` and `Lines.JoinSplit` prove it is undone by splitting at the separator |
| Lines.SplitJoin | scripts/fetch_codes.py:46 | joining a non-empty list of lines that contain no separator with that separator and splitting again gives the same list back |
| Lines.JoinSplit | scripts/fetch_codes.py:46 | splitting a string at a character and joining again gives the same string back |
| Lines.SplitAround | scripts/fetch_codes.py:46 | splitting at one separator occurrence splits the two sides independently |
| Extractor.CodeShaped | scripts/fetch_codes.py:17 | definition of `[A-Z0-9]{6,16}` matching a whole string; `Extractor.MinLengthExample`, `Extractor.MaxLengthExample` and `Extractor.OutOfBoundExamples` pin its bounds |
| Extractor.WordBoundary | scripts/fetch_codes.py:17 | definition of `\b`: a word character on exactly one side of the position; `Extractor.PatternMatchesMaximalRun` proves what it makes the pattern match |
| Extractor.PatternMatches | scripts/fetch_codes.py:17 | definition of the pattern matching a slice: a boundary at both ends and a code-shaped slice in between; `Extractor.PatternMatchesMaximalRun` proves it equals a code-shaped maximal word run |
| Extractor.PatternMatchesMaximalRun | scripts/fetch_codes.py:17 | the pattern `\b[A-Z0-9]{6,16}\b` matches a slice exactly when the slice is a maximal run of word characters and is code-shaped |
| Extractor.RunEnd | scripts/fetch_codes.py:17 | the end of a word run: every character before it is a word character and the character at it is not |
| Extractor.Scan | scripts/fetch_codes.py:37 | every match `finditer` reports is 6 to 16 characters of A-Z and 0-9 |
| Extractor.ScanSound | scripts/fetch_codes.py:37 | everything the scanner reports is a match of the pattern at some position |
| Extractor.ScanComplete | scripts/fetch_codes.py:37 | every match of the pattern at or after the scan position is reported |
| Extractor.Matches | scripts/fetch_codes.py:37 | definition of what `finditer` reports, as a set: every slice of the text at which the pattern matches; `Extractor.ScanFindsMatches` proves the scanner reports exactly these |
| Extractor.ScanFindsMatches | scripts/fetch_codes.py:37 | the scanner reports exactly the set of all pattern matches |
| Extractor.ExtractCodes | scripts/fetch_codes.py:35-38 | every extracted code is 6 to 16 upper-case letters and digits, and no blacklisted word is ever returned |
| Extractor.ExtractCodesMeaning | scripts/fetch_codes.py:35-38 | a string is extracted exactly when it is not blacklisted and the pattern matches it somewhere in the upper-cased text |
| Extractor.ExtractCodesAreWholeRuns | scripts/fetch_codes.py:17 | a string is extracted exactly when it is not blacklisted and is a whole, non-extendable run of word characters of the upper-cased text of code shape, so a code is never cut out of a longer word |
| Extractor.ExtractCodesIgnoresCase | scripts/fetch_codes.py:37 | a text and its upper-cased form yield the same codes |
| Extractor.ShortBlacklistEntryInert | scripts/fetch_codes.py:36 | the 4-letter entry `GIFT` never removes anything, because no code is that short |
| Extractor.ExtractCodesSplitsAtNonWord | scripts/fetch_codes.py:17 | a non-word character separates: the codes of `a + [c] + b` are the codes of `a` plus the codes of `b` |
| Extractor.ExtractCodesOfOneWord | scripts/fetch_codes.py:35-38 | a text that is one run of word characters yields its upper-cased form if that is code-shaped and not blacklisted, and nothing otherwise |
| Extractor.UpperOfCodeChars | scripts/fetch_codes.py:37 | a string of A-Z and 0-9 is unchanged by upper-casing |
| Extractor.ExtractCodesExample | scripts/fetch_codes.py:35-38 | the sample announcement yields exactly `{"KS2024GIFT"}`, with `REDEEM` and the short words dropped |
| Extractor.MinLengthExample | scripts/fetch_codes.py:17 | a code of exactly 6 characters is extracted |
| Extractor.MaxLengthExample | scripts/fetch_codes.py:17 | a code of exactly 16 characters is extracted |
| Extractor.OutOfBoundExamples | scripts/fetch_codes.py:17 | runs of 5 and of 17 code characters yield nothing |
| Extractor.UnderscoreExample | scripts/fetch_codes.py:17 | `abc123_x` yields nothing: the underscore makes the run longer, so no match is cut out of it |
| Extractor.KeyExample | scripts/fetch_codes.py:37 | the page text `KS2024GIFT` yields that code |
| Extractor.RedeemExample | scripts/fetch_codes.py:36-38 | the page text `REDEEM` yields nothing, as it is blacklisted |
| Extractor.ShortWordYieldsNothing | scripts/fetch_codes.py:17 | a word shorter than 6 characters yields nothing |
| Extractor.EmptyTextYieldsNothing | scripts/fetch_codes.py:35-38 | an empty page yields no codes |
| Diff.PerSource.Put | scripts/fetch_codes.py:64-67 | dictionary assignment: the value is replaced, a new key goes last, an existing key keeps its position, and keys stay distinct |
| Diff.AllCodes | scripts/fetch_codes.py:69 | the union holds exactly the codes found at some source |
| Diff.NewCodes | scripts/fetch_codes.py:70 | the new codes are strictly ascending, and a code is in the list exactly when it was found somewhere and is not in the state |
| Diff.NewCodesAreTheDifference | scripts/fetch_codes.py:69-70 | as a set, the new codes are disjoint from the state and equal to all codes found minus the state |
| Diff.Shares | scripts/fetch_codes.py:76 | definition of `any(c in codes for c in new)`; `Diff.Hits` and `Diff.SourcesHit` prove a source is credited exactly when it holds |
| Diff.Hits | scripts/fetch_codes.py:76 | the names kept are in their original order, and a name is kept exactly when its codes share one with the new list |
| Diff.SourcesHit | scripts/fetch_codes.py:76 | `sources_hit` lists, in dictionary order, exactly the sources whose codes include some new code |
| Diff.SomeSourceHitWhenNew | scripts/fetch_codes.py:72-76 | when there is any new code, at least one source is credited |
| Notifier.Ping | scripts/fetch_codes.py:45 | definition of the role mention line, empty without a role id; `Notifier.Content` and `Notifier.SplitPing` prove it starts the message exactly when a role id is set and is a line of its own |
| Notifier.Header | scripts/fetch_codes.py:49 | definition of the title line with the time stamp; `Notifier.BodyLines` proves it is the first line of the body |
| Notifier.BulletLine | scripts/fetch_codes.py:46 | definition of one bullet line, the code as an inline code token; `Notifier.BulletLines` proves the list holds one per code in order |
| Notifier.SourceLabel | scripts/fetch_codes.py:47 | definition of the source list joined by `, `, or `mixed sources` when it is empty; `Diff.SomeSourceHitWhenNew` proves the fallback is never reached from `main` |
| Notifier.Footer | scripts/fetch_codes.py:51 | definition of the `Sources checked` line; `Notifier.BodyLines` proves it is the line before the reminder |
| Notifier.Body | scripts/fetch_codes.py:49-52 | definition of the message after the mention; `Notifier.BodyLines` proves its line layout |
| Notifier.BulletLines | scripts/fetch_codes.py:46 | one bullet line per new code, in the given order |
| Notifier.Content | scripts/fetch_codes.py:44-53 | the message starts with a role mention exactly when a role id is set, and always ends with the redeem reminder |
| Notifier.BulletBlockLines | scripts/fetch_codes.py:46 | the joined bullet block reads back as one line per code, or a single empty line when there are none |
| Notifier.SplitPing | scripts/fetch_codes.py:45 | the mention, when present, is a line of its own before the rest |
| Notifier.BodyLines | scripts/fetch_codes.py:48-53 | the message after the mention reads back as header, bullet lines, empty line, sources line, reminder |
| Notifier.ContentLines | scripts/fetch_codes.py:44-53 | line by line the message is the optional mention, the header with the time stamp, one bullet per new code in order, an empty line, the sources line and the reminder |
| Notifier.Post | scripts/fetch_codes.py:40-57 | if no webhook is set, the post fails with the missing-webhook error; the post is delivered exactly when a webhook is set and the POST succeeds; a delivered post carries the content above |
| StateStore.Load | scripts/fetch_codes.py:24-29 | a readable record gives exactly its codes; a missing or unreadable file gives the empty set |
| StateStore.Saved | scripts/fetch_codes.py:31-33 | the saved record lists the codes strictly ascending, each once, and holds exactly the given set |
| StateStore.LoadSaved | scripts/fetch_codes.py:24-33 | loading what was saved gives the saved set back |
| StateStore.SavedInjective | scripts/fetch_codes.py:31-33 | different sets are saved as different records |
| StateStore.StateFile.LoadState | scripts/fetch_codes.py:24-29 | reading the file gives the loaded set of its current content |
| StateStore.StateFile.SaveState | scripts/fetch_codes.py:31-33 | saving overwrites the file with the sorted record of the set |
| Orchestrator.Found | scripts/fetch_codes.py:63-67 | a fetched page contributes its extracted codes, and a failed fetch contributes the empty set |
| Orchestrator.Collect | scripts/fetch_codes.py:61-67 | after the loop, the dictionary has a key for each configured source name, and only those |
| Orchestrator.CollectStep | scripts/fetch_codes.py:62-67 | one more loop step assigns the next source's codes under its name in the dictionary built so far |
| Orchestrator.CollectIsolatesSources | scripts/fetch_codes.py:62-67 | with distinct names, each source's entry is what its own fetch gave |
| Orchestrator.CollectKeepsConfiguredOrder | scripts/fetch_codes.py:61-67 | with distinct names, the dictionary lists the sources in configured order |
| Orchestrator.OtherSourcesUnaffected | scripts/fetch_codes.py:63-67 | with distinct names, a source's entry does not depend on what the other fetches gave, including their failures |
| Orchestrator.RunNewCodes | scripts/fetch_codes.py:60-70 | definition of the new list of one run; `Diff.NewCodes` and `Orchestrator.RunAfterPostIsNoOp` prove it ascending, exactly the unannounced found codes, and empty after a successful post |
| Orchestrator.RunSourcesHit | scripts/fetch_codes.py:61-76 | definition of the credited sources of one run; `Diff.SourcesHit` and `Orchestrator.RunWithDeliveredPost` prove it lists exactly the sources holding a new code, non-empty when something is posted |
| Orchestrator.RunSpec | scripts/fetch_codes.py:59-80 | definition of one run as outcome and new state file; `Orchestrator.Run` is proved equal to it, and the run properties below are proved about it |
| Orchestrator.RunWithNothingNew | scripts/fetch_codes.py:72-74 | the run ends without posting exactly when there is no new code, and the state is then left alone |
| Orchestrator.RunWithEverythingAnnounced | scripts/fetch_codes.py:69-74 | when every code found is already announced, there is no post and no save |
| Orchestrator.RunWithFailedPost | scripts/fetch_codes.py:77-79 | the run aborts exactly when there are new codes and either the webhook is missing or delivery fails; then nothing is saved, and the error is the missing-webhook one exactly when no webhook is set |
| Orchestrator.RunWithDeliveredPost | scripts/fetch_codes.py:76-80 | the run posts exactly when there are new codes, a webhook is set and delivery succeeds; it then reports the count, posts the content for the new codes and their non-empty source list, and saves the old set plus the new codes as a sorted record |
| Orchestrator.RunNeverForgets | scripts/fetch_codes.py:78-79 | the announced set never shrinks |
| Orchestrator.RunAfterPostIsNoOp | scripts/fetch_codes.py:59-80 | after a successful run, running again on the same pages posts nothing and leaves the state as it is |
| Orchestrator.RunAfterFailedPostRetries | scripts/fetch_codes.py:77-79 | after a failed post, the next run offers the same new codes again |
| Orchestrator.Run | scripts/fetch_codes.py:59-80 | the run's outcome and the new file content are those of the run specification, and the file is untouched unless the run posted |
| Scenarios.SingleCollect | scripts/fetch_codes.py:61-67 | after the loop over one source, the dictionary holds that source's name alone, with the codes its own fetch gave |
| Scenarios.ScenarioCollect | scripts/fetch_codes.py:61-67 | after the loop over two sources with different names, the dictionary lists both names in configured order, each with the codes its own fetch gave |
| Scenarios.TwoSourceDiff | scripts/fetch_codes.py:69-76 | a dictionary with an empty first entry and one code in the second gives, against an empty state, that code as the new list, credited to the second name alone |
| Scenarios.ScenarioDiff | scripts/fetch_codes.py:61-76 | with the first page failing and the second yielding exactly one code, and no prior state, the new list is that code alone, credited to the second source only |
| Scenarios.DeliveredRun | scripts/fetch_codes.py:72-80 | a run with new codes, a webhook set and a delivered post reports the number of new codes, posts the message for them and saves the old set plus the new codes |
| Scenarios.SavedFirstCode | scripts/fetch_codes.py:24-33 | saving one code over a missing state file records that code alone |
| Scenarios.FailureIsolation | scripts/fetch_codes.py:59-80 | in that two-source run with a webhook and a delivered post, the code is posted once, the message names only the second source, and the state file becomes that one code |
| Scenarios.FailureIsolationScenario | scripts/fetch_codes.py:59-80 | with the configured sources, the first page failing and the second page reading `ABC123XYZ`, that code is posted once, the message names only `eldorado codes`, and the state file becomes `["ABC123XYZ"]` |
| Scenarios.SingleSourceDiff | scripts/fetch_codes.py:69-76 | a one-entry dictionary holding one code gives, against an empty state, that code as the new list, credited to that entry's name |
| Scenarios.SingleCodeDiff | scripts/fetch_codes.py:61-76 | one configured page yielding exactly one code, no prior state: the new list is that code and the page's source is credited |
| Scenarios.WebhookFailureScenario | scripts/fetch_codes.py:77-79 | one page yielding one new code while the webhook is missing or delivery fails: the run aborts with the matching error and the missing state file stays missing |
| Scenarios.SingleCodeRun | scripts/fetch_codes.py:59-80 | one page yielding exactly one code, no prior state, delivered post: that code is posted once, credited to the page's source, and the file becomes that code alone |
| Scenarios.EndToEndScenario | scripts/fetch_codes.py:59-80 | the sample page with one code and one blacklisted word, no prior state: one code is posted and the file becomes `["KS2024GIFT"]` |

## Left out

- HTTP: `http_get` and the webhook POST are not modelled. Each page's fetch outcome is a parameter, and so is the webhook's acceptance. The User-Agent header, the 30-second timeout and UTF-8 decoding with `errors="ignore"` are absent.
- Fetch outcomes are a function of the URL, so two sources with the same URL get the same result within one run.
- JSON is not modelled: neither the `{"content": ...}` payload of the post nor the state file's JSON text with `indent=2`.
- Loading the state file is reduced to three cases: missing, unreadable, or a record with a list of strings.
  - A record without a `codes` key is the record with an empty list.
  - A `codes` value that is not a list of strings is not modelled.
- Environment variables and `.strip()` are not modelled. The webhook URL and role id arrive already trimmed, in `Config`.
- The clock is not modelled. The `%Y-%m-%d %H:%M UTC` time stamp is a string parameter.
- The messages printed to stdout and stderr are not modelled. The run outcome (`NoNewCodes`, `Posted(count, …)`, `PostAborted(error)`) stands in for them.
- Unicode is not modelled. Word characters are ASCII letters, digits and `_`, and upper-casing maps only a-z. Python's `str.upper` and `\b` also treat non-ASCII letters as letters, so a non-ASCII letter next to a code would stop it from matching there.
- Orchestrator.CollectIsolatesSources: proved only for distinct source names. With two sources of the same name, the later one overwrites the earlier one's entry and the earlier one keeps its place. `Diff.PerSource.Put` models that dictionary behaviour, but no lemma states it for repeated names.
- Notifier.Content: its contract covers the mention and the closing reminder. The full line layout is in `Notifier.ContentLines`, whose preconditions rule out newlines inside the role id, the time stamp, the codes and the source names. Extracted codes and the configured names never contain one.
- Orchestrator.RunSpec: assumes `save_state` (`scripts/fetch_codes.py:31-33`) always succeeds, so every `Posted` outcome comes with the saved record, and `Orchestrator.Run`, `Orchestrator.RunNeverForgets` and `Orchestrator.RunAfterPostIsNoOp` rest on that. In the script the save runs after the message went out (`:77-79`). A write error would end `main` with an error, and `open(..., "w")` may already have emptied the file. The next run would then read the file as the empty set (`:28-29`) and announce every code on the pages again. The model has no save outcome, so it does not capture this.
- An exception raised by `post` ends the script with an error. The model returns `PostAborted` with the reason instead.
