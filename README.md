# Notebook — a verified Dafny model of the in-memory note store

The C++ notebook keeps short notes. Each note has an author, a title, a body,
an ordered tag list and two `YYYY-MM-DD` date strings. The notebook holds them
in a `std::vector<Note>` and offers these operations:

- positional CRUD;
- five linear searches that return ascending position lists;
- two counting maps (notes per author, occurrences per tag);
- a JSON save/load pair;
- a built-in self-test that swaps in a three-note fixture and then restores the user's notes.

This project models that core in Dafny and proves what it promises.

Files and modules:

- `wrappers.dfy` (`Wrappers`): `Option`, `Result` and `Outcome`. They stand in for the null pointer and the C++ exceptions.
- `text.dfy` (`Text`): the `std::string` behaviour the code relies on.
  - `::tolower` in the "C" locale: ASCII `A`–`Z` only.
  - `std::string::find`, proved to return the first occurrence.
  - Lexicographic `operator<`, proved equal to the textbook "first difference" definition, and proved to be a strict total order.
- `json.dfy` (`JsonData`): a parsed JSON value. Objects are keyed maps. Numbers are integers.
- `note.dfy` (`Notes`): the `Note` value.
  - Its setters are functions that return the new note or a `ValidationError`.
  - `toJson` / `fromJson`, with the round trip proved.
  - `containsWord` and `hasTag`.
- `collection.dfy` (`Collection`): the `Notebook` class.
  - It has a `seq<Note>` field `notes` and a field `disk` for what `notes.json` holds.
  - Every search and statistics loop is proved against a pure function. The meaning of those functions is proved as lemmas: which positions are selected, and what each map counts and sums to.

The clock is never read. Every operation that stamps a date takes `today`.
`findByLastNDays` takes the cut-off date string that the C++ code derives from
the clock.

Behaviour that differs from what one might expect of a note store, as the code has it:

- `findByAuthor` is case-insensitive *equality* of whole names, not substring containment (`AuthorMatchIff`, `AuthorIsNotSubstring`).
- `findByTag` is *exact, case-sensitive* membership (`TagIsCaseSensitive`).
- `findByDate` matches the creation *or* the update date. It does no format check.
- `findByLastNDays` compares the `updatedAt` string with `>=`.
- The constructor `Note(author, title, content)` does not reject an empty author or title.
- `fromJson` does fail, on a member of the wrong type or on a non-object. Only missing members are defaulted.
- `loadFromFile` is not all-or-nothing. It clears the notes before decoding. An element that fails to decode throws with the notes decoded so far already in place (`LoadNotes`, `LoadFromFile`).
- `runTestScenarios` restores the notes only when it returns normally. If `saveToFile` throws, the fixture stays in memory. When saving succeeds, `notes.json` is overwritten with the fixture (`RunTestScenarios`).
- "`updatedAt >= createdAt`" is not enforced by the code. It holds as long as the clock never runs backwards (`SetterKeepsDatesOrdered`).

## Model

| member | source | states |
|---|---|---|
| Text.LowerChar | Notebook/Notebook.cpp:233-237 | `::tolower` of one character in the "C" locale: 'A'..'Z' map to 'a'..'z', every other character is kept |
| Text.ToLower | Notebook/Notebook.cpp:233-237 | the result has the input's length and each character is its `::tolower` image (ASCII upper case to lower case, everything else kept) |
| Text.ToLowerIdempotent | Notebook/Notebook.cpp:233-237 | lower-casing an already lower-cased string changes nothing |
| Text.ToLowerAppend | Notebook/Note.cpp:96-107 | lower-casing works character by character, so it distributes over concatenation |
| Text.Contains | Notebook/Note.cpp:110-111 | `find(needle) != npos`: a search from position 0 finds something |
| Text.FindFrom | Notebook/Note.cpp:110-111 | `find` returns a position where the needle occurs with no earlier occurrence, or npos exactly when it occurs nowhere |
| Text.ContainsIff | Notebook/Note.cpp:110-111 | `find(...) != npos` holds exactly when the needle is a substring |
| Text.ContainsEmpty | Notebook/Note.cpp:110-111 | the empty string is found in every string, the empty one included |
| Text.FoundInside | Notebook/Note.cpp:96-111 | a word, lower-cased, is found in the lower-cased form of any text that contains it |
| Text.NotFoundWithout | Notebook/Note.cpp:110-111 | a needle with a character the text lacks is not found |
| Text.Less | Notebook/Notebook.cpp:88 | `std::string` `operator<`: the empty string is below every non-empty one, otherwise the first characters decide, and equal first characters defer to the rests |
| Text.AtLeast | Notebook/Notebook.cpp:88 | `operator>=` is the negation of `operator<` |
| Text.LessIff | Notebook/Notebook.cpp:88 | `std::string` `operator<` is "proper prefix, or smaller character at the first difference" |
| Text.LessIrreflexive | Notebook/Notebook.cpp:88 | no date string sorts before itself |
| Text.LessTransitive | Notebook/Notebook.cpp:88 | `operator<` is transitive |
| Text.LessTotal | Notebook/Notebook.cpp:88 | two different strings are always ordered one way or the other |
| Text.AtLeastTransitive | Notebook/Notebook.cpp:88 | `operator>=` is transitive |
| Notes.BlankNote | Notebook/Note.cpp:11-14 | `Note()` has empty text fields, no tags and both dates equal to today |
| Notes.NewNote | Notebook/Note.cpp:17-21 | the constructor keeps author, title and content as given, even empty ones; no tags; `updatedAt == createdAt == today` |
| Notes.SetAuthor | Notebook/Note.cpp:24-28 | fails exactly on an empty author; on success changes the author and `updatedAt` (to today, even when the value is unchanged) and nothing else |
| Notes.SetTitle | Notebook/Note.cpp:31-35 | fails exactly on an empty title; on success changes the title and `updatedAt` and nothing else |
| Notes.SetContent | Notebook/Note.cpp:38-41 | any content, the empty one included, is accepted; only content and `updatedAt` change |
| Notes.SetTags | Notebook/Note.cpp:44-47 | any tag list is accepted in its order; only tags and `updatedAt` change |
| Notes.Update | Notebook/Note.cpp:50-56 | an empty title fails before any field changes; otherwise title, content and tags take the given values, `updatedAt` is today, author and `createdAt` are kept |
| Notes.SetterKeepsDatesOrdered | Notebook/Note.cpp:24-56 | with a clock that does not run backwards, every successful setter keeps `createdAt <= updatedAt` and never moves `updatedAt` back |
| Notes.TagsJson | Notebook/Note.cpp:68 | the tag vector becomes a JSON array of the same strings in the same order |
| Notes.ToJson | Notebook/Note.cpp:59-71 | the record is an object with exactly the six members of a note |
| Notes.StringMember | Notebook/Note.cpp:78-82 | `value(key, "")`: a missing member gives `""`, a string member gives its text, any other type is an error |
| Notes.DecodeTags | Notebook/Note.cpp:85-90 | the tag loop succeeds exactly when every element is a string, and then yields those strings in order |
| Notes.TagsMember | Notebook/Note.cpp:85-90 | `tags` is read only when present and an array; otherwise the note has no tags |
| Notes.Decoded | Notebook/Note.cpp:74-93 | `fromJson`: a non-object fails; each of the five strings is read with its default, in source order, then the tags; the first wrongly typed member is the error |
| Notes.FromJson | Notebook/Note.cpp:74-93 | the loop-based reader returns exactly the note (or error) that `Decoded` specifies |
| Notes.RoundTrip | Notebook/Note.cpp:59-93 | `fromJson(toJson(n))` returns `n` on all six fields, tags in order |
| Notes.MissingMembersDefault | Notebook/Note.cpp:78-90 | missing members never make `fromJson` fail, and members other than the six are ignored whatever their type: missing strings become `""`, a missing or non-array `tags` becomes no tags |
| Notes.ContainsWord | Notebook/Note.cpp:96-112 | `containsWord`: the lower-cased word is found in the lower-cased title or in the lower-cased content |
| Notes.HasTag | Notebook/Note.cpp:115-118 | `hasTag`: the tag equals one of the note's tags exactly |
| Notes.ContainsWordIff | Notebook/Note.cpp:96-112 | `containsWord(w)` holds exactly when lower-case `w` is a substring of the lower-cased title or of the lower-cased content |
| Notes.EmptyWordMatches | Notebook/Note.cpp:96-112 | the empty word matches every note |
| Notes.ContainsWordIgnoresCase | Notebook/Note.cpp:96-112 | a word and its lower-case form match the same notes |
| Collection.Matches | Notebook/Notebook.cpp:33-92 | the per-note test of each search: lower-cased author equality, exact tag membership, `containsWord`, creation or update date equal to the date, `updatedAt >= ` the cut-off |
| Collection.Positions | Notebook/Notebook.cpp:33-92 | a search result is strictly increasing, in range, and holds position `i` exactly when note `i` passes the search's test |
| Collection.SinceMonotone | Notebook/Notebook.cpp:75-92 | an earlier cut-off date never selects fewer notes |
| Collection.AuthorIsNotSubstring | Notebook/Notebook.cpp:33-43 | author search ignores case but compares whole names: "KATE" finds "Kate", "kat" does not |
| Collection.AuthorMatchIff | Notebook/Notebook.cpp:33-43 | for every note and query, author search matches exactly when the query has the author's length and agrees with it at every position once lower-cased: whole names, never substrings |
| Collection.TagIsCaseSensitive | Notebook/Notebook.cpp:45-53 | tag search is exact: "work" does not find a note tagged "Work" |
| Collection.Bump | Notebook/Notebook.cpp:99 | `stats[key]++` adds `key` with count 1 or raises its count by 1, leaving other keys alone |
| Collection.Tally | Notebook/Notebook.cpp:96-112 | the counting loop: `stats[key]++` for each key in order, starting from the given map |
| Collection.TallyAppend | Notebook/Notebook.cpp:104-112 | counting the tags of one more note continues the running counts |
| Collection.TallyCounts | Notebook/Notebook.cpp:96-112 | counting from an empty map yields exactly the keys that occur, each with its number of occurrences |
| Collection.TotalBump | Notebook/Notebook.cpp:99 | each `stats[key]++` raises the sum of all counts by one |
| Collection.TallyTotal | Notebook/Notebook.cpp:96-112 | the counts add up to the number of keys counted |
| Collection.Authors | Notebook/Notebook.cpp:98-99 | one author per note, in order |
| Collection.AllTags | Notebook/Notebook.cpp:106-107 | a tag is listed exactly when some note carries it |
| Collection.AuthorCounts | Notebook/Notebook.cpp:96-102 | `getAuthorStats`: the authors of the notes, counted from an empty map |
| Collection.TagCounts | Notebook/Notebook.cpp:104-112 | `getTagStats`: every tag of every note, counted from an empty map |
| Collection.AuthorStatsMeaning | Notebook/Notebook.cpp:96-102 | the author map has exactly the authors present (case-sensitive), each with its number of notes; the counts sum to the number of notes |
| Collection.TagStatsMeaning | Notebook/Notebook.cpp:104-112 | the tag map has exactly the tags present, each with its number of occurrences (duplicates count); the counts sum to the total number of tags |
| Collection.NotesJson | Notebook/Notebook.cpp:119-121 | the saved array holds `toJson` of every note, in order |
| Collection.Document | Notebook/Notebook.cpp:116-121 | the saved document is an object whose only member is `notes`, and its `notes` array is the notes' JSON in order |
| Collection.NoteItems | Notebook/Notebook.cpp:146 | the items loaded are the `notes` array when the document has one, and none otherwise |
| Collection.LoadNotes | Notebook/Notebook.cpp:145-150 | loading keeps the longest prefix of items that decode; with no error every item was decoded, otherwise the next item is the one that failed |
| Collection.LoadNotesStopsAt | Notebook/Notebook.cpp:145-150 | when the items before position `i` decode and item `i` fails, loading keeps exactly the decoded ones and reports item `i`'s error, whatever follows |
| Collection.LoadNotesAllDecoded | Notebook/Notebook.cpp:145-150 | when every item decodes, loading keeps every decoded note, in order, without error |
| Collection.LoadSavedDocument | Notebook/Notebook.cpp:115-150 | loading what `saveToFile` wrote gives back the same notes in the same order, without error |
| Collection.Fixture | Notebook/Notebook.cpp:189-196 | the three self-test notes: each built by the constructor and then `setTags`, so both dates are today |
| Collection.FixtureByAuthor | Notebook/Notebook.cpp:199-201 | over the fixture, `findByAuthor("Kate")` returns positions 0 and 2 |
| Collection.FixtureByTag | Notebook/Notebook.cpp:203-206 | over the fixture, `findByTag("work")` returns position 1 |
| Collection.FixtureByWord | Notebook/Notebook.cpp:208-211 | over the fixture, `findByWord("project")` returns position 1 ("programming" does not match) |
| Collection.FixtureWordHits | Notebook/Notebook.cpp:208-211 | of the fixture's notes only the middle one, Bob's, contains "project" |
| Collection.FixtureAuthorStats | Notebook/Notebook.cpp:213-218 | over the fixture, the author statistics are Kate: 2, Bob: 1 |
| Collection.FixtureExpectations | Notebook/Notebook.cpp:188-218 | the four results the self-test prints, together |
| Collection.Notebook.constructor | Notebook/Notebook.h:11-12 | a new notebook has no notes |
| Collection.Notebook.AddNote | Notebook/Notebook.cpp:11-13 | the note is appended: `notes == old(notes) + [n]` |
| Collection.Notebook.RemoveNote | Notebook/Notebook.cpp:15-19 | out of range: returns false, notes unchanged; otherwise returns true and removes position `i`, later notes shifting down |
| Collection.Notebook.GetNote | Notebook/Notebook.cpp:21-24 | returns the note at `i` exactly when `0 <= i < |notes|`, null otherwise |
| Collection.Notebook.UpdateNote | Notebook/Notebook.cpp:26-30 | in range: returns true and replaces position `i` only; out of range: returns false, notes unchanged |
| Collection.Notebook.Select | Notebook/Notebook.cpp:33-92 | the shared search loop returns exactly `Positions(notes, q)` |
| Collection.Notebook.FindByAuthor | Notebook/Notebook.cpp:33-43 | position `i` is returned exactly when the lower-cased author of note `i` equals the lower-cased query |
| Collection.Notebook.FindByTag | Notebook/Notebook.cpp:45-53 | position `i` is returned exactly when note `i` carries the tag, exactly |
| Collection.Notebook.FindByWord | Notebook/Notebook.cpp:55-63 | position `i` is returned exactly when `containsWord` holds for note `i` |
| Collection.Notebook.FindByDate | Notebook/Notebook.cpp:65-73 | position `i` is returned exactly when note `i` was created or last updated on that date |
| Collection.Notebook.FindByLastNDays | Notebook/Notebook.cpp:75-92 | position `i` is returned exactly when note `i`'s `updatedAt` is `>=` the cut-off date string |
| Collection.Notebook.AuthorStats | Notebook/Notebook.cpp:96-102 | the loop builds exactly `AuthorCounts(notes)` |
| Collection.Notebook.TagStats | Notebook/Notebook.cpp:104-112 | the nested loop builds exactly `TagCounts(notes)` |
| Collection.Notebook.SaveToFile | Notebook/Notebook.cpp:115-132 | writable: the file now holds `{"notes": [...]}` of the current notes; otherwise it throws and the file is untouched; the notes never change |
| Collection.Notebook.LoadFromFile | Notebook/Notebook.cpp:134-156 | no file: nothing changes; unparsable: throws, nothing changes; otherwise the notes become the decoded prefix and it throws if an item failed |
| Collection.Notebook.InstallFixture | Notebook/Notebook.cpp:185-196 | after clearing and the three additions the notes are exactly the fixture; the file is untouched |
| Collection.Notebook.SearchFixture | Notebook/Notebook.cpp:198-218 | over the fixture the searches return [0, 2], [1], [1] and the author statistics are {Kate: 2, Bob: 1} |
| Collection.Notebook.SaveAndReload | Notebook/Notebook.cpp:221-225 | writable: the notes come back unchanged after clear-and-reload, the count is their number and the file holds them; otherwise it fails with notes and file unchanged |
| Collection.Notebook.RunTestScenarios | Notebook/Notebook.cpp:180-230 | reports positions [0, 2], [1], [1] and stats {Kate: 2, Bob: 1}; when the file is writable it reloads 3 notes, restores the notes exactly and leaves the fixture in the file; otherwise the fixture stays in memory |

## Left out

- Console output: `Note::print`, `printAll`, `printNotes` and every `cout` line. They only display.
- The console UI (`ConsoleUI`) and the code-page helpers (`EncodingUtils`). The UI only prompts. The helpers wrap Windows conversion calls whose behaviour is not visible.
- The clock (`getCurrentDate`, `time`, `localtime_s`). Dates are parameters (`today`, `targetDate`).
- Collection.Notebook.FindByLastNDays: takes the cut-off date itself. Computing it from `days` is left out: it needs the clock, and `days * 24 * 60 * 60` can overflow a 32-bit `int`.
- JSON text: `dump(2)` and parsing. The file is modelled as the JSON value it holds (`Disk`). A document written and read back is assumed to be the same value. Opening a file for writing is the parameter `writable`. A file that exists but does not parse is `Unparsable`.
- JSON numbers are integers only. Floating-point values play no part in the notebook.
- Text is assumed to be valid UTF-8, with every character one of the code points it encodes. Two consequences are not modelled. First, passing a byte of 0x80 or more to `::tolower` where `char` is signed is undefined behaviour; the model leaves such characters unchanged. Second, nlohmann's `dump` throws on a string that is not valid UTF-8, after the `ofstream` has already truncated `notes.json`.
- Collection.Notebook.SaveToFile: promises success whenever the file is writable. This holds only under the UTF-8 assumption above: with invalid text the C++ code throws from `dump` and leaves an empty file.
- Text is a sequence of characters compared by code point. For the byte strings of the C++ code this is the unsigned-byte order of `std::string`. `::tolower` is taken in the "C" locale, so only ASCII letters change.
- Collection.Notebook.GetNote: returns a copy of the note rather than a pointer into the vector. Editing a note through that pointer is modelled as `UpdateNote` with the edited value.
- `getStorageInfo` and `markUpdated`: they use a `Storable` base class that `Note.h` does not declare.
- `loadNotesFromJson`: declared in `Notebook.h` but never defined.
- `getNoteCount`: it only casts the size to `int`.
- Exceptions are results (`Result`, `Outcome`), not control flow. Their message texts are not modelled.
