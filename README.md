# Hangul Garden — a verified model of its core logic

Hangul Garden is a Korean-learning web application. It has a React/TypeScript
front end and a Flask/Python backend. This project models the logic at its core
in Dafny and proves properties of that model:

- **The slang quiz engine** (`services/minigameService.ts`), modelled as the classes `Minigame.GameState` and `Minigame.GameEngine`. It runs in two modes:
  - 신조어 (new slang): one pass over a glossary.
  - 단어장 (word book): rounds over the user's saved words. Each round keeps only the words answered wrongly.

  The engine includes the seeded and unseeded Fisher–Yates shuffle (`Shuffle`), the choice of three distractors, the four lettered options, answer judging, round transitions, status, resume and reset.
- **Edit distance** (`EditDistance`): the row-compressed Levenshtein loop and the full-matrix loop. The full-matrix loop appears three times, textually identical. Both loops are proved equal to the recursive unit-cost edit distance, and so to each other.
- **String normalisers**: trimming, the Hangul-only filter, ISBN and HTML-tag cleanup (`Strings`, `QuizGeneration`, `NaverService`).
- **Backend book matching** (`BookMatch`, `Bestsellers`): the `normalize_string` helpers, Aladin and recommendation scoring with its best-match loops, cover and ISBN normalisation, the display clamp, the textbook-level filter and the bestseller accumulation.
- **Collection updates in the screens**:
  - vocabulary folders (`Folders`, `VocabularyView`);
  - the search history, bookmark and trending words (`DictionaryView`);
  - saved books (`BookRecView`);
  - the flashcard index (`FlashcardModal`);
  - lesson progress (`KoreanStudyView`, `Progress`, `App`);
  - the quiz screen's guards and favorites (`MinigameView`).
- **The local account store** (`AuthService`), kept as a key–value store of users keyed by email plus a signed-in email.
- **The translation provider** (`LanguageContext`): dotted-key look-up and `{{name}}` interpolation.
- **The AI request texts** (`Prompts`), and the validation of the quiz questions the model returns (`QuizGeneration`).

Where the source updates state in place, the model does so too. The quiz engine's `gameState` and `currentQuestionOptions`, the account store, the translation provider, a lesson's practice flags, the shuffle's array and the vocabulary-quiz word array are all modelled this way. Each such method is proved against a specification function or states its whole new state. The screens' handlers build new arrays and hand them to state setters, so they are modelled as functions from the old value to the new one.

Inputs the model takes as parameters:
- network replies (OpenAI, Gemini, Naver, Aladin);
- `Math.random` (a draw function);
- `Date.now()`;
- `confirm`;
- `encodeURIComponent`.

`src/App.tsx` has the same logic as `App.tsx`. The `App` members model both, and the table cites `App.tsx`. The three full-matrix Levenshtein copies are cited once, at `services/openaiService.ts`; the others are at `src/services/geminiService.ts:303-327` and `services/openaiService.clean.ts:220-243`.

## Model

| member | source | states |
|---|---|---|
| AuthService.GetUsers | services/authService.ts:10-18 | a parsed users entry is returned as stored; a missing or unparseable entry reads as the empty record |
| AuthService.NewUser | services/authService.ts:38-57 | the new account copies the sign-up details, has exactly one empty `기본 화단` folder with the given id, and a progress map over exactly the fourteen basic consonants with ㄱ unlocked and every other one locked |
| AuthService.SignupOn | services/authService.ts:32-63 | sign-up fails with "already exists" exactly when the email is already stored, and then nothing changes; otherwise the new account is stored under its email, every earlier record is kept, the key set grows by that email only, and the email becomes the signed-in one |
| AuthService.LoginOn | services/authService.ts:65-87 | an unknown email fails with "not found"; a non-empty password succeeds iff it equals the stored one, otherwise "invalid password"; no password (the social sign-in) always succeeds for a known email; a failure writes nothing and a success writes only the signed-in email and returns the stored record |
| AuthService.LogoutOn | services/authService.ts:187-192 | the signed-in email is removed and the users entry is left as it was |
| AuthService.CurrentUserOf | services/authService.ts:194-204 | a user is returned iff a non-empty email is signed in and has a record, and it is that record |
| AuthService.UpdateOn | services/authService.ts:206-217 | the update succeeds iff the email has a record; then only that record is replaced, the key set and the signed-in email are kept; otherwise "not found" and nothing is written |
| AuthService.OperationsKeepKeys | services/authService.ts:58-60 | sign-up, log-in, log-out and update each keep every record stored under its own email |
| AuthService.SignupThenCurrentUser | services/authService.ts:58-61 | right after a sign-up with a new non-empty email, the current user is the new account |
| AuthService.SignupThenLogin | services/authService.ts:65-82 | after sign-up the same email with the same password, and the same email with no password, both log in and return the new account |
| AuthService.SignupTwice | services/authService.ts:35-37 | a second sign-up with the same email is refused and leaves the store unchanged |
| AuthService.LogoutThenCurrentUser | services/authService.ts:187-204 | after log-out there is no current user |
| AuthService.UpdateThenCurrentUser | services/authService.ts:194-217 | updating the signed-in user's record is what the next current-user read returns |
| AuthService.SignupOverUnparsable | services/authService.ts:10-18 | a sign-up over an unparseable users entry leaves exactly the new account |
| AuthService.AuthStore.constructor | services/authService.ts:6-7 | the store starts with the given users entry and signed-in email |
| AuthService.AuthStore.Signup | services/authService.ts:32-63 | the new store and the reply are those of `SignupOn` on the old store |
| AuthService.AuthStore.Login | services/authService.ts:65-87 | the new store and the reply are those of `LoginOn` on the old store; only the signed-in email may change |
| AuthService.AuthStore.Logout | services/authService.ts:187-192 | the new store is `LogoutOn` of the old one |
| AuthService.AuthStore.GetCurrentUser | services/authService.ts:194-204 | the reply is `CurrentUserOf` the store, and with records keyed by email the returned user's email is the signed-in one |
| AuthService.AuthStore.UpdateUser | services/authService.ts:206-217 | the new store and the reply are those of `UpdateOn`; only the users entry may change |
| App.RebuiltProgress | App.tsx:362-379 | the rebuilt progress map has exactly the fourteen basic consonants as keys, keeps every stored status among them, and gives the others their default (ㄱ unlocked, the rest locked) |
| App.Repair | App.tsx:356-394 | the user record is updated iff the progress map is missing or has fewer than four keys, or there is no folder; a broken map is rebuilt, a missing folder list becomes one empty `기본 화단` folder, and every other field is kept |
| App.RebuiltProgressWhole | App.tsx:362-379 | the rebuilt map has fourteen keys, so the four-key check no longer fires on it |
| App.RebuiltFromNothing | App.tsx:362-379 | with no stored map the rebuilt one is the map a new account starts with |
| App.RepairSettles | App.tsx:356-394 | a record produced by the repair needs no further repair |
| App.RepairKeepsCompleted | App.tsx:364-378 | a lesson completed in the stored map stays completed after the rebuild |
| App.SavedWords | App.tsx:187 | the saved-word total is the `reduce` over the folders, which equals the sum of their word counts; 0 without folders and at least the size of every folder |
| App.SumFromTotal | App.tsx:187 | the `reduce` from a starting total adds the word counts of all the folders to it |
| App.SavedWordsBound | App.tsx:187 | every folder's word count is at most the total over all folders |
| App.CompletedLessons | App.tsx:201 | the number of progress values that are `completed`: 0 without a progress map, at most the number of lessons in it, and 0 exactly when no lesson is completed |
| App.NicknameCheck | App.tsx:299-302 | a blank nickname is refused, an accepted one has at least two characters, and a nickname without surrounding blanks is accepted iff it has at least two characters |
| App.ResetProgress | App.tsx:215-235 | the reset stores the default fourteen-key map, changes no other field, and leaves no lesson completed |
| App.ResetNeedsNoRepair | App.tsx:215-235 | after a reset the repair effect does not rebuild the progress |
| Bestsellers.LevelKeywords | backend/app.py:848-854 | the three levels get their own filter keywords and any other level gets none |
| Bestsellers.OtherLevelKeywords | backend/app.py:921-924 | a word is among the other-level keywords iff it is in the keyword list of some level other than the requested one |
| Bestsellers.KeepsOwnLevel | backend/app.py:911-931 | a textbook title that carries one of its own level's keywords is kept, whatever other keywords it carries |
| Bestsellers.DropsNonTextbook | backend/app.py:905-913 | a title without any textbook keyword (compared upper-cased) is never kept |
| Bestsellers.UnknownLevelDropsLevelled | backend/app.py:918-931 | for a level outside the table every level keyword belongs to another level, so a title carrying a beginner keyword is dropped |
| Bestsellers.CleanedIsbn | backend/app.py:934-935 | the field used is `isbn13` when present, else `isbn`, else the empty text, and exactly its non-dash characters are kept, in order and with their multiplicities |
| Bestsellers.FirstOfSeries | backend/app.py:945 | the index found is that of the first entry of the named series (no earlier entry belongs to it); none is found only when no entry belongs to it |
| Bestsellers.CollectedAppend | backend/app.py:959-963 | appending an entry that passed the filter, with an ISBN not yet collected and a series seen but not collected, keeps every entry admitted and ISBNs and series distinct |
| Bestsellers.CollectedReplace | backend/app.py:953-963 | dropping the entries of the new entry's series and appending it keeps every entry admitted and ISBNs and series distinct |
| Bestsellers.UnseenSeries | backend/app.py:942-957 | a series not in the seen set has no collected entry |
| Bestsellers.CollectedSubsequence | backend/app.py:955 | dropping entries keeps the collection's invariant |
| Bestsellers.Collect | backend/app.py:884-963 | the list is the fold `CollectSpec` of `CollectStep` over the items (skip, append, or replace the entries of the series); every collected entry is an item of the search that passed the title filter and carries its cleaned, non-empty ISBN and its sales point; no two entries share an ISBN or a series; the list is empty iff no item passes the filter with a non-empty ISBN |
| Bestsellers.CollectItem | backend/app.py:907-963 | one round is `CollectStep`: an item failing the filter, with an empty ISBN or an ISBN already collected is skipped; an item of a series seen before replaces that series' entries when it sells more than the first of them and is skipped otherwise; any other item is appended and its series marked seen; the round keeps the collection's invariant |
| Bestsellers.CollectStepKeeps | backend/app.py:937-963 | one round of the fold keeps the collection's invariant, and leaves the list empty iff it was empty and the item cannot be collected |
| Bestsellers.CollectSpecKeeps | backend/app.py:907-963 | after any prefix of the items the fold keeps the collection's invariant, and its list is empty iff no item of the prefix passes the filter with a non-empty ISBN |
| Bestsellers.AdmittedPasses | backend/app.py:907-937 | a collected entry witnesses an item that passes the filter with a non-empty ISBN |
| Bestsellers.InsertBySales | backend/app.py:966 | inserting one entry adds exactly that entry to the multiset |
| Bestsellers.InsertKeepsDescending | backend/app.py:966 | inserting into a list in descending order of sales keeps it in descending order |
| Bestsellers.SortBySales | backend/app.py:966 | the sort is a permutation of the list in descending order of sales |
| Bestsellers.InsertBySalesFilter | backend/app.py:966 | inserting an entry puts it ahead of the entries with the same sales and keeps their order |
| Bestsellers.SortBySalesStable | backend/app.py:966 | the sort is stable: the entries with equal sales keep their collection order, as Python's `sort` does with `reverse=True` |
| Bestsellers.UniqueByPermutation | backend/app.py:966 | reordering keeps the ISBNs distinct |
| Bestsellers.LevelDescription | backend/app.py:981-991 | each of the three levels gets its own description and any other level the generic one |
| Bestsellers.BestsellerBook | backend/app.py:972-998 | the book's id is the cleaned ISBN when it is non-empty and never empty; its cover is the Aladin cover rule applied, its title and author are the item's, and its description is the one given |
| Bestsellers.TopBestsellers | backend/app.py:966-1004 | nothing collected gives the fall-back (none); otherwise the first three entries of the sales-sorted list, or all of them when fewer, become books in that order |
| Bestsellers.BooksOf | backend/app.py:970-998 | one book per entry, in order |
| Bestsellers.SortedFromCollection | backend/app.py:966 | after sorting every entry is still a collected, admitted entry and no two share an ISBN |
| Bestsellers.TopThree | backend/app.py:966-971 | the returned entries are at most three, in descending order of sales, admitted entries of the collection, with distinct ISBNs |
| Bestsellers.BooksOfAdmitted | backend/app.py:987-998 | books made from admitted entries with distinct ISBNs have their non-empty ISBN as id, come from a filtered item, and have distinct ISBNs |
| Bestsellers.TopBooks | backend/app.py:966-998 | the books of a non-empty collection are one to three filtered items with their ISBN as id, the given description and distinct ISBNs |
| Bestsellers.LevelBestsellers | backend/app.py:846-1004 | the result is `None` (the fall-back) iff the fold `CollectSpec` over the items is empty; otherwise it is the books of its first three entries after the stable sales sort, in that order; so it falls back iff no search item passes the title filter with a non-empty ISBN, and otherwise returns one to three books, each a filtered item of the search with its non-empty ISBN as id and the level's description, with no ISBN twice |
| BookMatch.Normalize | backend/app.py:614-615 | the normalised text keeps exactly the non-space characters of the lower-cased input, in order and with their multiplicities, so it holds no space and no upper-case ASCII letter |
| BookMatch.NormalizeIdempotent | backend/app.py:614-615 | normalising a normalised text changes nothing |
| BookMatch.NormalizeIgnoresSpaces | backend/app.py:614-615 | a space inside a text makes no difference to its normalised form |
| BookMatch.NormalizeFull | backend/app.py:1078-1082 | a missing or empty text normalises to the empty text; otherwise the result keeps exactly the characters of the lower-cased text that are neither a space nor an ideographic space, in order and with their multiplicities |
| BookMatch.NormalizeFullExtends | backend/app.py:1078-1082 | on text without ideographic spaces the second helper agrees with the first |
| BookMatch.NormalizeFullIdempotent | backend/app.py:1078-1082 | normalising the result again changes nothing |
| BookMatch.AladinScore | backend/app.py:627-633 | the score is 0, 5, 10 or 15; at least 10 iff either normalised title contains the other; it ends in 5 iff a non-empty requested author is contained in the item's |
| BookMatch.BestMatch | backend/app.py:617-637 | the chosen item has the highest score of all items, and every earlier item scores strictly less, so it is the first of maximal score |
| BookMatch.FirstBest | backend/app.py:620-637 | for any scoring, the loop keeps the first item of maximal score |
| BookMatch.SplitWhere | backend/app.py:1205-1206 | splitting gives one piece more than there are separators, no piece holds a separator, and gluing the pieces back with the separators gives the text |
| BookMatch.WordSetWithoutSpace | backend/app.py:1205-1206 | a normalised title without white space is a single word after removing parentheses, or no word when nothing is left |
| BookMatch.TitleScore | backend/app.py:1196-1209 | no points for an empty title; 50 for the same title; 30 when the item's title contains it; 20 when it contains the item's; else 5 per common word |
| BookMatch.TitleScoreWithoutSpace | backend/app.py:1196-1209 | for titles without white space the title score is 0, 5, 20, 30 or 50, and 50 exactly for the same non-empty title |
| BookMatch.AuthorScore | backend/app.py:1212-1214 | the author adds 15 iff both normalised authors are non-empty and one contains the other, else nothing |
| BookMatch.ScanItems | backend/app.py:1190-1218 | scanning one reply never lowers the best score and bounds every item's score; the best is kept iff no item scores more; a replaced best is an item of the reply carrying the best score |
| BookMatch.ScanItemsFirst | backend/app.py:1190-1218 | a replaced best is the first item of the reply with its score, since only a strictly higher score replaces it |
| BookMatch.ScanItemsAppend | backend/app.py:1190-1218 | scanning two lists in turn is scanning their concatenation |
| BookMatch.ScanReplies | backend/app.py:1178-1223 | after any number of replies the best item carries the best score, and with no best item the score is 0 |
| BookMatch.ScanRepliesAll | backend/app.py:1178-1223 | scanning the replies one after another is one scan of all their items in order, so the best is the first item of maximal score over all the replies |
| BookMatch.BestScoreMonotone | backend/app.py:1178-1223 | the best score after more replies is at least the best score after fewer |
| BookMatch.PrefixMonotone | backend/app.py:1178-1223 | the best score of a prefix of the replies is at most that of the whole |
| BookMatch.BestScoreBounds | backend/app.py:1190-1218 | every item of every reply scanned scores at most the best score |
| BookMatch.SearchBest | backend/app.py:1174-1223 | the queries asked are a prefix of the replies; the result is the scan of that prefix; a match is found iff the best score reaches 10; without one every query is asked; before the last query asked the best score was below 10 |
| BookMatch.SearchWith | backend/app.py:1178-1223 | the same loop for any scoring of items |
| BookMatch.EarlierBelow | backend/app.py:1221-1223 | when the best score is below 10 after some queries, it was below 10 after every earlier one |
| BookMatch.ScanReply | backend/app.py:1190-1218 | the inner loop over one reply computes the scan of that reply from the best so far |
| BookMatch.AladinCover | backend/app.py:1233-1236 | an empty cover stays empty, a cover starting with `http` is kept, any other gets the Aladin image prefix, so the result is empty or starts with `http` |
| BookMatch.AladinCoverIdempotent | backend/app.py:1233-1236 | applying the cover rule twice is applying it once |
| BookMatch.StripDashes | backend/app.py:658 | the result has no dash, keeps exactly the non-dash characters of the ISBN in order and with their multiplicities, and an ISBN without dashes is kept |
| BookMatch.CleanGeminiIsbn | backend/app.py:1109-1115 | the cleaned ISBN keeps exactly the characters of the trimmed ISBN that are neither a dash nor a space, in order and with their multiplicities |
| BookMatch.DirectLookup | backend/app.py:1109-1121 | the direct look-up is attempted iff at least 10 characters are left after cleaning, with the cleaned ISBN, as an ISBN13 id iff 13 are left; a blank ISBN is never looked up |
| BookMatch.CleanGeminiIsbnIdempotent | backend/app.py:1109-1115 | when the only white space in the given ISBN is spaces, cleaning the cleaned ISBN changes nothing |
| BookMatch.ClampDisplay | backend/app.py:501-514 | the number of results asked of Naver is at most 100 and equals the requested number when that is at most 100 |
| BookMatch.KoreanOnly | backend/app.py:241 | the result keeps exactly the Hangul syllables, consonants and vowels of the text, in order and with their multiplicities |
| BookMatch.KoreanOnlyIsHangulOnly | backend/app.py:241 | the backend filter keeps exactly the characters the front end's Hangul filter keeps |
| BookMatch.MatchIsbn | backend/app.py:1228-1231 | the ISBN is taken from `isbn13` when it is non-empty, else from `isbn`, and keeps exactly the non-dash characters of that field, in order and with their multiplicities |
| BookMatch.EnrichedBook | backend/app.py:1226-1249 | the entry's id is its ISBN when non-empty and title-author otherwise, never empty; the title and author are the match's or the recommended ones; the description is the recommendation's; the cover follows the Aladin cover rule |
| BookRecView.BookId | components/BookRecView.tsx:138 | a book's id is its own id when present and non-empty, else title-author, and never empty |
| BookRecView.WithoutId | components/BookRecView.tsx:142 | the saved books with another id remain in their order, each with every copy it had, and no book with that id remains; nothing changes when the id is absent |
| BookRecView.ToggleBookmark | components/BookRecView.tsx:137-147 | a saved book is removed (every copy with its id); an unsaved one is appended with its id filled in; afterwards the book is bookmarked iff it was not before |
| BookRecView.ToggleTwice | components/BookRecView.tsx:137-147 | bookmarking an unsaved book and toggling it again restores the saved list |
| BookRecView.WithoutIdLast | components/BookRecView.tsx:142 | removing the id of a book just appended, when no other book has it, gives back the list before the append |
| BookRecView.ToggleKeepsIdsDistinct | components/BookRecView.tsx:137-152 | toggling keeps the ids of the saved books distinct |
| BookRecView.WithoutIdDistinct | components/BookRecView.tsx:142 | removing an id keeps the saved ids distinct |
| BookRecView.MoodSubmit | components/BookRecView.tsx:184-200 | an empty mood is refused; otherwise the request carries the mood, an empty situation or level is sent as absent, and no entered text is lost |
| BookRecView.ThumbnailFor | components/BookRecView.tsx:27-35 | the cover is shown iff it starts with `http`; otherwise a placeholder with the title's first character, or 📖 for an empty title |
| DictionaryView.SaveToHistory | components/DictionaryView.tsx:77-79 | the new history has one to ten entries, starts with the term, holds it exactly once, continues with a prefix of the earlier history without the term, and is as long as that history plus one, capped at ten |
| DictionaryView.SaveToHistoryKeepsOrder | components/DictionaryView.tsx:79 | the earlier searches kept after the term appear in their old order |
| DictionaryView.SaveToHistoryIdempotent | components/DictionaryView.tsx:77-79 | searching the same term twice leaves the history as one search did |
| DictionaryView.SaveToHistoryNoDup | components/DictionaryView.tsx:79 | a history without repeats stays without repeats |
| DictionaryView.DeleteFromHistory | components/DictionaryView.tsx:85-88 | every copy of the term is gone, and every other search remains in its order with every copy it had |
| DictionaryView.DeleteAfterSave | components/DictionaryView.tsx:77-88 | deleting a term just searched leaves a prefix of the earlier history without it |
| DictionaryView.IsBookmarked | components/DictionaryView.tsx:94-102 | the flag is set iff there is a result, the user has folders, and some folder holds a word equal to the result's word |
| DictionaryView.TrendingPool | components/DictionaryView.tsx:47-48 | the pool has no repeats, holds only offerable slang of the glossary (non-blank, without `(` or `GMG`), and every offerable slang of the glossary |
| DictionaryView.Trending | components/DictionaryView.tsx:37-59 | with no glossary the seven fallback words are shown; otherwise the first seven of the given order of the pool, or all of it when shorter: distinct offerable glossary words, exactly seven when the pool has that many |
| DictionaryView.TakeFromPool | components/DictionaryView.tsx:47-52 | the first seven of any order of the pool are distinct offerable glossary words, and the order is as long as the pool |
| EditDistance.Min3 | services/openaiService.backup.ts:943 | the result is one of the three values and no greater than any of them |
| EditDistance.DistUpperBound | services/openaiService.backup.ts:933-952 | the distance between two prefixes is at most the longer prefix's length |
| EditDistance.DistLowerBound | services/openaiService.backup.ts:933-952 | the distance between two prefixes is at least the difference of their lengths |
| EditDistance.DistSymmetric | src/services/geminiService.ts:303-327 | the distance from a prefix of a to a prefix of b equals the distance the other way round |
| EditDistance.SymmetricStep | src/services/geminiService.ts:303-327 | the recurrence is symmetric once its three smaller cells are |
| EditDistance.DistStep | services/openaiService.ts:279-291 | a cell of the distance table is the least of its three neighbours plus their step costs |
| EditDistance.DistSelf | services/openaiService.backup.ts:933-952 | a prefix is at distance 0 from itself |
| EditDistance.DistZero | services/openaiService.backup.ts:933-952 | prefixes at distance 0 are equal |
| EditDistance.DistColumnStep | services/openaiService.backup.ts:940-946 | dropping the last character of the second string changes the distance by at most one |
| EditDistance.DistRowStep | services/openaiService.backup.ts:940-946 | dropping the last character of the first string changes the distance by at most one |
| EditDistance.DistMatch | services/openaiService.ts:281-282 | when the last characters agree the distance is the diagonal one, which is why both loops copy the diagonal without taking a minimum |
| EditDistance.LevenshteinBounds | services/openaiService.backup.ts:933-952 | distance(s, s) is 0; the distance lies between the difference of the lengths and the longer length; it is symmetric; and it is 0 iff the strings are equal |
| EditDistance.RowLevenshtein | services/openaiService.backup.ts:933-952 | the row-compressed loop returns the edit distance |
| EditDistance.StepCell | services/openaiService.backup.ts:940-946 | one cell step computes the cell's distance and moves the boundary between the old and the new row one cell on |
| EditDistance.OverwriteRow | services/openaiService.backup.ts:935-949 | one pass of the inner loop turns the row of s1[..i-1] into the row of s1[..i] (row 0 is 0, 1, 2, …) |
| EditDistance.MatrixLevenshtein | services/openaiService.ts:270-294 | the full-matrix loop returns the edit distance, |b| for an empty a and |a| for an empty b; the same loop is at src/services/geminiService.ts:303-327 and services/openaiService.clean.ts:219-243 |
| EditDistance.FillRow | services/openaiService.ts:280-290 | one pass of the inner loop fills row i of the matrix with the distances from b[..i] |
| EditDistance.CopiesAgree | services/openaiService.ts:270-294 | the row-compressed and the full-matrix loops return the same number, the edit distance |
| EditDistance.SimpleStringSimilarity | services/openaiService.backup.ts:919-931 | the 0.9 result comes iff either string contains the other, so the empty-string branch is never reached; otherwise the ratio has the longer length as denominator and the longer length minus the distance, between 0 and the denominator, as numerator |
| FlashcardModal.Next | src/components/FlashcardModal.tsx:22-25 | the next index stays within the deck, moves one on and wraps from the last card to the first; the card is face down |
| FlashcardModal.Prev | src/components/FlashcardModal.tsx:27-30 | the previous index stays within the deck, moves one back and wraps from the first card to the last; the card is face down |
| FlashcardModal.PrevAfterNext | src/components/FlashcardModal.tsx:22-30 | stepping back after stepping forward returns to the same card, face down |
| FlashcardModal.NextAfterPrev | src/components/FlashcardModal.tsx:22-30 | stepping forward after stepping back returns to the same card, face down |
| FlashcardModal.NextTimesIndex | src/components/FlashcardModal.tsx:24 | after k presses of next (1 ≤ k ≤ n) the index has moved k places round the deck |
| FlashcardModal.FullCycle | src/components/FlashcardModal.tsx:24 | n presses of next return to the starting card |
| Folders.FindFolder | components/DictionaryView.tsx:175 | the position found is the first folder with the id, and none is found iff no folder has it |
| Folders.AppendWhere | components/DictionaryView.tsx:184-189 | the word is appended to every folder with the id and every other folder is unchanged |
| Folders.AddWord | components/DictionaryView.tsx:172-198 | an unknown folder id changes nothing; a folder (the first with the id) already holding the word is left as it is; otherwise the saved word is appended to the folder(s) with the id, keeping their id and name, and the other folders are unchanged |
| Folders.AddWordBookmarks | components/DictionaryView.tsx:172-195 | after an addition the word counts as saved, so the bookmark flag is set |
| Folders.AddWordCount | components/DictionaryView.tsx:172-198 | with distinct folder ids an addition saves exactly one more word and keeps the ids distinct |
| Folders.CreateFolderWith | components/DictionaryView.tsx:200-231 | a blank name is refused; a trimmed name some folder already has is refused; otherwise exactly one folder is appended, with the trimmed name and the one saved word, and the earlier folders are kept |
| Folders.CreateFolderKeepsNamesUnique | components/DictionaryView.tsx:200-231 | creating a folder keeps folder names distinct, saves exactly one more word and bookmarks it |
| Types.AsEntry | components/MinigameView.tsx:64-68 | a saved word becomes a quiz entry with its word, its slang meaning or (when that is empty) its dictionary meaning, and its example |
| Types.Entries | components/MinigameView.tsx:63-69 | the entries correspond one to one, in order, to the words |
| Types.SavedWord | components/DictionaryView.tsx:184 | the saved word is the dictionary entry with the given id |
| Types.SavedWordCountAppend | App.tsx:187 | the word total over two lists of folders joined is the sum of their totals |
| Types.SavedWordCountUpdate | App.tsx:187 | replacing one folder changes the total by the change in that folder's size |
| MinigameView.LoadGlossary | components/MinigameView.tsx:43-47 | the glossary is kept iff its `entries` array is present and non-empty, and then unchanged |
| MinigameView.Favorites | components/MinigameView.tsx:62-69 | there is one favorite per saved word over all folders |
| MinigameView.FavoritesAt | components/MinigameView.tsx:62-69 | order and multiplicity of the `flatMap`: word k of folder i is the favorite at the position after all the words of the earlier folders |
| MinigameView.FavoritesFromWords | components/MinigameView.tsx:62-69 | every favorite is the quiz entry of some saved word, and every saved word's entry is a favorite |
| MinigameView.HandleStart | components/MinigameView.tsx:75-121 | the glossary tab without a glossary and the word-book tab without favorites are refused before the engine is touched; a refused `initGame` (fewer than four glossary entries) leaves the engine as it was; otherwise a fresh game in the tab's mode with the screen's options is started at question 0 with score 0 and no wrong answers, and a started question's options become the engine's current options |
| MinigameView.BeginRound | components/MinigameView.tsx:101-107 | `startGame` on the game just made either refuses or starts, keeps the mode and options, leaves index, score and wrong answers at zero, and a started question's options become the current options |
| MinigameView.HandleAnswer | components/MinigameView.tsx:123-132 | input is ignored with no question on screen or feedback shown; it is only reported, with the game unchanged, iff there is no current question or the input selects no option; feedback shown means the question index moved on by one and the score shown is the game's |
| MinigameView.MissedWord | components/MinigameView.tsx:140-141 | the entry found has the correct option's text as its slang; when the glossary holds that slang it is the first such glossary entry, otherwise the first such favorite; none is found iff neither holds it |
| MinigameView.FindSlang | components/MinigameView.tsx:140 | the entry found is the first with the slang; none is found iff no entry has it |
| MinigameView.WrongWordEntry | components/MinigameView.tsx:144-149 | the entry offered for saving has the slang as word, the entry's meaning and example, and the fixed "not in the standard dictionary" meaning |
| MinigameView.AddMissedWord | components/MinigameView.tsx:197-226 | an unknown folder id changes nothing; the word is reported as already saved iff the first folder with the id holds it; otherwise the saved missed word is appended to the folder(s) with the id only, every other folder is kept, and the word is bookmarked |
| MinigameView.CreateFolderForMissedWord | components/MinigameView.tsx:228-260 | a blank name or a trimmed name already in use is refused; otherwise exactly one folder with the trimmed name holding the saved missed word is appended |
| KoreanStudyView.ConsonantsShape | src/components/KoreanStudyView.tsx:30-49 | there are 19 consonant lessons, each in the consonant group with four quiz options led by its own letter |
| KoreanStudyView.VowelsShape | src/components/KoreanStudyView.tsx:51-72 | there are 21 vowel lessons, each in the vowel group with four quiz options led by its own letter |
| KoreanStudyView.WordsShape | src/components/KoreanStudyView.tsx:74-84 | there are 10 word lessons, each in the word group with four quiz options led by its own word |
| KoreanStudyView.LessonsShape | src/components/KoreanStudyView.tsx:29-85 | the table has 50 lessons, each with four quiz options led by its own text; filtering by group gives exactly the 19 consonants, the 21 vowels and the 10 words |
| KoreanStudyView.LessonCount | src/components/KoreanStudyView.tsx:704 | the table has 50 lessons |
| KoreanStudyView.LessonsGroups | src/components/KoreanStudyView.tsx:631 | each group's filter gives exactly that group's block of the table |
| KoreanStudyView.ConsonantGroup | src/components/KoreanStudyView.tsx:631 | the consonant filter gives the consonant block |
| KoreanStudyView.VowelGroup | src/components/KoreanStudyView.tsx:631 | the vowel filter gives the vowel block |
| KoreanStudyView.WordGroup | src/components/KoreanStudyView.tsx:631 | the word filter gives the word block |
| KoreanStudyView.GroupLessons | src/components/KoreanStudyView.tsx:631 | the lessons of a group all carry its name and keep the table's order |
| KoreanStudyView.UnknownGroup | src/components/KoreanStudyView.tsx:631-632 | a group name no lesson carries has no lessons |
| KoreanStudyView.RoundPercent | src/components/KoreanStudyView.tsx:634 | the result is `done / total * 100` rounded half up (`RoundsTo`); hence 0 for nothing done, at most 100, 100 when all is done, and below 100 when something is left (for totals under 200) |
| KoreanStudyView.GroupProgress | src/components/KoreanStudyView.tsx:630-635 | an empty group is at 0; otherwise the result is the group's completed count over its size, times 100, rounded half up; so at most 100, 100 iff every lesson of the group is completed, and 0 when none is |
| KoreanStudyView.GroupCompleteIff | src/components/KoreanStudyView.tsx:630-635 | a non-empty group is at 100 percent iff every one of its lessons is marked completed |
| KoreanStudyView.ViewProgress | src/components/KoreanStudyView.tsx:628 | the screen reads the user's progress map, or ㄱ alone unlocked when there is none |
| KoreanStudyView.OverallProgress | src/components/KoreanStudyView.tsx:703-706 | the overall percentage is twice the number of completed entries (the rounding is exact over 50 lessons) |
| KoreanStudyView.TrimHangul | src/components/KoreanStudyView.tsx:192-196 | Hangul text has nothing to trim |
| KoreanStudyView.WritingAcceptsNoHangul | src/components/KoreanStudyView.tsx:192-199 | a recognition with no Hangul in it is accepted for every lesson |
| KoreanStudyView.WritingOneLetter | src/components/KoreanStudyView.tsx:192-199 | for a one-letter lesson a recognition is accepted iff it has no Hangul or its Hangul includes the letter |
| KoreanStudyView.OneLetterMatches | src/components/KoreanStudyView.tsx:199 | a text matches a one-letter target iff it is empty or includes the letter |
| KoreanStudyView.SpeechAcceptsBlank | src/components/KoreanStudyView.tsx:460-470 | an empty or all-blank transcription matches every lesson |
| KoreanStudyView.SpeechAcceptsTarget | src/components/KoreanStudyView.tsx:460-470 | a transcription that is the lesson's letter, name or spoken text, up to ASCII case and surrounding blanks, matches |
| KoreanStudyView.LessonDetail.constructor | src/components/KoreanStudyView.tsx:350-353 | a lesson opens on the reading tab with no practice done and no quiz offered |
| KoreanStudyView.LessonDetail.ShowTab | src/components/KoreanStudyView.tsx:538-540 | the reading, writing and speaking tab buttons only switch the tab |
| KoreanStudyView.LessonDetail.ShowQuiz | src/components/KoreanStudyView.tsx:541-542 | the quiz tab can be opened only when all three practices are done |
| KoreanStudyView.LessonDetail.AudioEnded | src/components/KoreanStudyView.tsx:383-386 | the end of the spoken text marks reading done; no flag is cleared |
| KoreanStudyView.LessonDetail.WritingCorrect | src/components/KoreanStudyView.tsx:525-527 | a correct letter marks writing done; no flag is cleared |
| KoreanStudyView.LessonDetail.SpeechResult | src/components/KoreanStudyView.tsx:459-475 | speaking is marked done iff the transcription matches the lesson; no flag is cleared |
| KoreanStudyView.LessonDetail.QuizAnswer | src/components/KoreanStudyView.tsx:516-523 | the lesson is completed iff the chosen option is the lesson's own text |
| KoreanStudyView.CompleteLesson | src/components/KoreanStudyView.tsx:645-650 | without a lesson or a user nothing changes; otherwise the progress the screen reads gets that lesson marked completed |
| KoreanStudyView.CompleteLessonProgress | src/components/KoreanStudyView.tsx:645-650 | completing a lesson adds or overwrites only its own entry, and the completed count grows by one unless it was already completed |
| KoreanStudyView.ResetProgress | src/components/KoreanStudyView.tsx:708-731 | without a user or without confirmation nothing changes; otherwise the progress becomes the default fourteen-consonant map |
| KoreanStudyView.ResetClearsProgress | src/components/KoreanStudyView.tsx:708-731 | after a reset the progress is the default map and the overall percentage is 0 |
| LanguageContext.Member | src/contexts/LanguageContext.tsx:55 | a member is found iff the value is an object holding that name, and it is that field |
| LanguageContext.LookupAppend | src/contexts/LanguageContext.tsx:55 | walking two paths one after the other is walking their concatenation |
| LanguageContext.LookupUndefined | src/contexts/LanguageContext.tsx:55 | once the walk reaches `undefined` it stays `undefined` |
| LanguageContext.ArgString | src/contexts/LanguageContext.tsx:71 | `String(value)`: a text as it is, a number in decimal with a minus sign when negative, a flag as `true` or `false` |
| LanguageContext.ReturnObjects | src/contexts/LanguageContext.tsx:62 | raw values are asked for iff the first `returnObjects` option is truthy |
| LanguageContext.Placeholder | src/contexts/LanguageContext.tsx:71 | the placeholder of a key is the key in double braces, four characters longer |
| LanguageContext.Fill | src/contexts/LanguageContext.tsx:69-72 | the `returnObjects` option leaves the text alone, and so does an option whose placeholder does not occur in it |
| LanguageContext.FillFirst | src/contexts/LanguageContext.tsx:69-72 | any other option replaces the first placeholder of its key by its value as text, keeps the text before it and goes on after it; with `Strings.FirstOccurrence` this decides every text |
| LanguageContext.InterpolatedNoPlaceholder | src/contexts/LanguageContext.tsx:66-74 | text without `{{` comes out of interpolation unchanged |
| LanguageContext.InterpolatedIgnoresReturnObjects | src/contexts/LanguageContext.tsx:69 | the `returnObjects` options play no part in interpolation |
| LanguageContext.WithoutReturnObjects | src/contexts/LanguageContext.tsx:69 | the options left hold no `returnObjects` key and are no more than before |
| LanguageContext.Interpolate | src/contexts/LanguageContext.tsx:66-74 | the loop's text is the interpolation of the found text by every option in order |
| LanguageContext.LanguageProvider.constructor | src/contexts/LanguageContext.tsx:15-16 | the provider starts in Korean with no translations loaded |
| LanguageContext.LanguageProvider.AdoptSaved | src/contexts/LanguageContext.tsx:18-23 | a stored language is adopted iff it is one of the seven; otherwise the language is kept |
| LanguageContext.LanguageProvider.TranslationsLoaded | src/contexts/LanguageContext.tsx:25-42 | the translations become the parsed locale file, or `{}` when the fetch or the parse failed |
| LanguageContext.LanguageProvider.SetLanguage | src/contexts/LanguageContext.tsx:44-48 | the code is stored, the translations are cleared and the language is set |
| LanguageContext.LanguageProvider.Translate | src/contexts/LanguageContext.tsx:50-78 | the key itself while nothing is loaded or when the dotted path leads nowhere; with `returnObjects` the value found; a text found is interpolated; any other value is returned as found |
| LanguageContext.TopLevelKey | src/contexts/LanguageContext.tsx:55 | a key without a dot is looked up at the top level of the table |
| LanguageContext.NestedKey | src/contexts/LanguageContext.tsx:55 | a key `a.b` is `b` looked up inside `a` |
| LanguageContext.LookupTwo | src/contexts/LanguageContext.tsx:55 | a two-step walk is two member look-ups |
| Progress.DefaultProgressShape | services/authService.ts:41-56 | the default map has exactly the fourteen distinct basic consonants as keys, ㄱ unlocked and every other one locked |
| Progress.DefaultNothingCompleted | src/components/KoreanStudyView.tsx:708-731 | the default map marks no lesson completed |
| Progress.CompletedCount | App.tsx:201 | the number of keys whose value is `completed`: at most the size of the map, 0 exactly when no value is `completed`, and the size of the map exactly when every value is |
| Minigame.Candidates | services/minigameService.ts:68-70 | the candidates are exactly the pool's slangs other than the answer and the excluded ones, kept in pool order |
| Minigame.GenerateWrongAnswers | services/minigameService.ts:63-74 | there are three distractors, or all candidates when fewer exist; none is the answer or excluded, and each comes from the pool |
| Minigame.WrongAnswersDistinct | services/minigameService.ts:63-74 | when the pool's slangs are distinct, so are the distractors |
| Minigame.ShuffledOptionsWellFormed | services/minigameService.ts:254-261 | any reordering of the four options A (answer) and B–D (distractors) carries each letter once, letter A exactly on the answer's text, and offers only the answer and the distractors |
| Minigame.ReorderedLetters | services/minigameService.ts:254-261 | distinct options drawn from four with distinct letters carry distinct letters |
| Minigame.OptionText | services/minigameService.ts:254-259 | an option built for a question is lettered A exactly when it holds the answer |
| Minigame.ReorderedOptions | services/minigameService.ts:254-261 | a reordering of the four options holds each of them exactly once |
| Minigame.TranslateMeaning | services/minigameService.ts:188-226 | Korean or a missing reply keeps the meaning; for another language a reply that is not blank gives the trimmed reply, and a blank one the meaning |
| Minigame.PresentedQuestionShape | services/minigameService.ts:239-274 | a question is thrown exactly when fewer than three distractors exist (with the pool size); otherwise it has four well-formed options, the entry's slang as answer, position index plus one, the round's total and a hint allowed |
| Minigame.OptionsFromPool | services/minigameService.ts:241-259 | every option offered is the answer or a slang of the distractor pool |
| Minigame.ShuffledOptions | services/minigameService.ts:254-261 | the shuffled options are well formed and offer only the answer and the distractors |
| Minigame.ShuffleOptions | services/minigameService.ts:261 | the option shuffle done by `shuffleArray` computes `ShuffledOptions` |
| Minigame.Find | services/minigameService.ts:296-299 | `find` by label or by text: the option found is accepted and belongs to the options, and every option before it is refused; none is found exactly when every option is refused |
| Minigame.SelectOption | services/minigameService.ts:290-300 | a trimmed A–D in either case selects an option with that upper-case letter, anything else an option whose text equals the trimmed answer; nothing is selected exactly when no option has that letter, or that text |
| Minigame.LabelAIsCorrect | services/minigameService.ts:254-306 | with well-formed options, answering A or a selects the option holding the answer |
| Minigame.KeepMissed | services/minigameService.ts:347-348 | the narrowed active set holds the entries whose slang was missed, in their order, each with every copy it had, and nothing else |
| Minigame.KeepMissedNone | services/minigameService.ts:348-351 | with nothing missed the active set becomes empty |
| Minigame.KeepMissedAll | services/minigameService.ts:348 | with every word missed the active set is kept whole |
| Minigame.OrderedPermutes | services/minigameService.ts:104-106 | the question order of a round is a permutation of its pool, and the pool itself when shuffling is off |
| Minigame.Order | services/minigameService.ts:169-171 | the method computes the question order `Ordered` |
| Minigame.PresentAtShape | services/minigameService.ts:231-274 | past the end of the questions the only outcome is "no more questions"; otherwise a presented question has four well-formed options and the entry at the index as answer, numbered index plus one |
| Minigame.TotalCorrectAppend | services/minigameService.ts:364 | the total correct over a history grows by exactly the appended round's correct answers |
| Minigame.BuildQuestion | services/minigameService.ts:239-274 | the method computes `PresentedQuestion` |
| Minigame.GameState.constructor | services/minigameService.ts:93-110 | a new game is at round 1 with nothing asked, scored, missed or recorded |
| Minigame.GameState.Present | services/minigameService.ts:228-275 | the result is `Presenting`; the entry at the index becomes the current question even when its distractors then fall short |
| Minigame.GameState.Score | services/minigameService.ts:306-322 | the index advances by one, the score by one exactly on a correct answer, and in 단어장 the slang leaves the missed set when right and joins it when wrong; the game stays valid |
| Minigame.GameState.Restart | services/minigameService.ts:166-182 | the questions are reordered, index, score and missed set start over, the total becomes the round size, 단어장 adds it to its running total, and a 신조어 game still asks a permutation of its glossary |
| Minigame.GameState.EndRound | services/minigameService.ts:344-411 | the round ends as `RoundEnded` states, including the running total that counts the round twice when nothing was missed; the active set stays a selection of the favorites |
| Minigame.GameState.RecordRound | services/minigameService.ts:348-402 | the active set is narrowed and exactly one round record is appended |
| Minigame.GameState.NewRound | services/minigameService.ts:381-394 | the round number advances, the active set is reordered, index and score restart and the running total grows by the round size |
| Minigame.RoundEndProgress | services/minigameService.ts:344-411 | a round end appends one record whose correct answers the total then includes, narrows the active set to missed words, completes exactly when no word is left, and otherwise starts a round asking a permutation of the active set |
| Minigame.GameEngine.constructor | services/minigameService.ts:39 | the engine starts without a game and without stored options |
| Minigame.GameEngine.InitGame | services/minigameService.ts:78-146 | 신조어 succeeds iff the glossary has at least four entries, 단어장 iff there is a favorite; a failure changes nothing; a success makes a fresh game with the fields of the source's object literal |
| Minigame.GameEngine.PresentQuestion | services/minigameService.ts:228-275 | without a game it throws; otherwise it returns `Presenting` and records the question, replacing the stored options only when a question results |
| Minigame.GameEngine.StartGame | services/minigameService.ts:148-185 | the outcome is an error exactly without a game, with an empty active set in 단어장 or with no questions in 신조어 (NOT_INITIALIZED, NO_ACTIVE_SET, NO_QUESTIONS), and an error changes nothing; otherwise the questions are put in order afresh, index, score and missed words start over, 단어장 adds the round to its running total, and the outcome is the presentation of the first question |
| Minigame.GameEngine.SubmitAnswer | services/minigameService.ts:280-336 | the input is invalid exactly without a game, without a current question or without a matching option; otherwise score, index and missed set change as `Score` says and the feedback holds the selection, the correct option, the explanation, the score and the remaining count |
| Minigame.GameEngine.GetNextQuestion | services/minigameService.ts:338-425 | within the round the next question is presented and nothing else changes; after it 신조어 reports its totals unchanged and 단어장 ends the round as `RoundEnded` states |
| Minigame.GameEngine.GetStatus | services/minigameService.ts:455-468 | without a game there is no status; otherwise mode, score and remaining count, with active-set size, round and running total exactly in 단어장 |
| Minigame.GameEngine.StopGame | services/minigameService.ts:427-441 | stopping reports the same status as `GetStatus` and changes nothing |
| Minigame.GameEngine.ResumeGame | services/minigameService.ts:443-453 | NO_STATE without a game, NO_ACTIVE_SET for an empty 단어장 set with nothing changed, otherwise the question at the current index is presented again |
| Minigame.GameEngine.ResetWordbook | services/minigameService.ts:470-487 | succeeds exactly for a 단어장 game, which then restarts from all favorites at round 1 with empty history; otherwise nothing changes |
| NaverService.FirstIndex | services/naverService.ts:110 | the position found holds the first `>` of the text |
| NaverService.StripTags | services/naverService.ts:110-112 | removing tags never lengthens the text and keeps only characters of the original |
| NaverService.StripTagsIsTagFree | services/naverService.ts:110-112 | after removal no `<` is followed by a `>`: no complete tag is left |
| NaverService.TagFreeUnchanged | services/naverService.ts:110-112 | text without a complete tag is left unchanged |
| NaverService.StripTagsIdempotent | services/naverService.ts:110-112 | removing tags twice removes nothing more, and text without `<` is left alone |
| NaverService.StripTagsSubsequence | services/naverService.ts:110-112 | removing tags only deletes characters: the result is a subsequence of the text |
| NaverService.StripTagsPlainPrefix | services/naverService.ts:110-112 | text before the first `<` passes through untouched |
| NaverService.StripTagsTag | services/naverService.ts:110-112 | a complete tag `<t>` after text without `<` is deleted, and the text after it is stripped in turn |
| NaverService.FirstOfLength | services/naverService.ts:115-116 | the token found is the first of the given length; none is found exactly when no token has it |
| NaverService.PickIsbn | services/naverService.ts:115-117 | the ISBN kept is the first 13-character token of the field when there is one, else the first 10-character token, and empty exactly when the field has neither |
| NaverService.CoverUrl | services/naverService.ts:124-138 | an empty image gives no cover; otherwise the tag-free URL, with `https://` prefixed unless it already has an http or https scheme |
| NaverService.CoverUrlIdempotent | services/naverService.ts:124-132 | a cover URL passed through the processing again comes out unchanged |
| NaverService.NonEmpty | services/naverService.ts:141-143 | an empty field becomes absent and any other is kept |
| NaverService.ConvertItem | services/naverService.ts:108-145 | a book's title, author and description are tag-free, with the fixed text replacing an empty description; it has the picked ISBN, the cover URL and the search link, and its empty price, publisher and date are absent |
| NaverService.ConvertBooks | services/naverService.ts:107-146 | one book per item, in order, linked to a search for its cleaned title and author |
| NaverService.ConvertBooksAppend | services/naverService.ts:107-146 | converting a concatenation of item lists converts each list |
| NaverService.SearchQueryByLevel | services/naverService.ts:151-158 | the three levels map to their own queries and any other level to the general query |
| NaverService.SearchQueryByGenre | services/naverService.ts:163-165 | the genre is framed as `한국어 <genre> 책` |
| NaverService.TitleAuthorQuery | services/naverService.ts:176 | the query starts with the title, and adds the author after a space exactly when one is given and non-empty |
| NaverService.BookByTitleAndAuthor | services/naverService.ts:173-245 | a failed request or an empty reply gives null; otherwise the first item, converted and linked to a search for the query as asked |
| Prompts.PromptLanguage | services/openaiService.ts:52 | the prompt language is always one of the seven, the requested one exactly when it is one of them, and English otherwise |
| Prompts.PromptLanguageIdempotent | services/openaiService.ts:52 | choosing again from the chosen language changes nothing |
| Prompts.PromptFor | src/services/geminiService.ts:34-65 | with a prompt table holding the seven languages, a known language gets its own prompts and any other the English ones |
| Prompts.LevelDescription | services/openaiService.ts:102-109 | the three Korean level names get their TOPIK grades appended, and exactly the other levels pass through unchanged |
| Prompts.LevelDescriptionIdempotent | services/openaiService.ts:102-109 | a described level is described no further |
| Prompts.Described | services/openaiService.ts:188-195 | the optional arguments are kept, the level replaced by its description, and the described level is truthy exactly when the level is |
| Prompts.Present | services/openaiService.ts:176-195 | a part appears, once and with its argument, exactly when that argument is truthy |
| Prompts.SectionAt | services/openaiService.ts:176-195 | each position of the prompt's parts comes from the situation, purpose, genre or level part, in that order |
| Prompts.MoodSectionsFaithful | services/openaiService.ts:176-195 | every part shown carries its own truthy argument |
| Prompts.MoodSectionsComplete | services/openaiService.ts:176-195 | every truthy argument is shown |
| Prompts.MoodSectionsOrdered | services/openaiService.ts:176-195 | the parts come in the fixed order situation, purpose, genre, level |
| Prompts.MoodPromptWithoutOptions | services/openaiService.ts:174-197 | with no optional argument the prompt is the mood header followed by the fixed instructions |
| Prompts.BuildMoodPrompt | services/openaiService.ts:174-197 | the string built by successive appends is the header, the present parts in order, then the instructions |
| Prompts.AppendPart | services/openaiService.ts:176-195 | one conditional append renders exactly one more part when it is present and nothing otherwise |
| Prompts.ClearLookups | src/services/geminiService.ts:126-130 | every parsed book is kept, in order, with its cover and ISBN cleared and every other field unchanged |
| Prompts.ClearLookupsIdempotent | src/services/geminiService.ts:222-226 | clearing twice is clearing once |
| Prompts.EnglishLevelDescription | services/openaiService.clean.ts:67-71 | only the three English level keys are described, each exactly as its Korean level is |
| QuizGeneration.DropFill | services/openaiService.backup.ts:444-451 | no `fill` question is left, every other question is kept, and the order is preserved |
| QuizGeneration.DropFillExactly | services/openaiService.clean.ts:150 | exactly the `fill` questions go: every other question keeps all its copies |
| QuizGeneration.MinigameQuestions | services/openaiService.clean.ts:149-152 | a reply without `questions` gives none; otherwise its questions without `fill` |
| QuizGeneration.McqDefinition | services/openaiService.backup.ts:459-462 | the fallback definition quotes the answer, or 신조어 when it is missing or empty, followed by the fixed explanation, and has at least 20 characters |
| QuizGeneration.NotBlankFromFirst | services/openaiService.backup.ts:457 | a text starting with a non-blank character is not blank, so the fallback is accepted |
| QuizGeneration.ValidateMcq | services/openaiService.backup.ts:454-467 | only a multiple-choice question with a missing, blank or under-20-character definition changes, and only its definition, which becomes the fallback; every multiple-choice result has an acceptable definition |
| QuizGeneration.ValidateQuestions | services/openaiService.backup.ts:444-467 | no `fill` is left; every multiple-choice question has a non-blank definition of at least 20 characters, its own when that was acceptable and the fallback otherwise; every other question is kept in its place, and only definitions change |
| QuizGeneration.ValidateQuestionsIdempotent | services/openaiService.backup.ts:444-467 | validating an already validated list changes nothing |
| QuizGeneration.SelectWords | services/openaiService.backup.ts:500-507 | an empty word list is refused; with more words than the count the caller's array is reordered in place and its first `count` words are taken; otherwise the array itself is used unchanged; the array is always a permutation of what it held |
| QuizGeneration.FindInfo | services/openaiService.backup.ts:599 | the entry found is in the word info and answers the question; none is found exactly when the answer is missing or no entry has it |
| QuizGeneration.FillHint | services/openaiService.backup.ts:602 | the hint gives the answer's length in characters, or 2 when the answer is missing or empty |
| QuizGeneration.FixFill | services/openaiService.backup.ts:594-606 | only a `fill` question with a missing, blank or under-10-character definition changes, and only its definition: the meaning of the word it answers when that is non-empty, else the hint |
| QuizGeneration.FixFills | services/openaiService.backup.ts:594-606 | the count is kept, only deficient `fill` definitions change, and every `fill` question ends with a non-empty definition |
| QuizGeneration.FixFillUsesWord | services/openaiService.backup.ts:599-602 | a deficient `fill` question whose answer is a sampled word with a meaning gets the meaning of the first such word |
| QuizGeneration.FindInfoFirst | services/openaiService.backup.ts:599 | the look-up returns the first entry with the answer |
| QuizGeneration.CleanIsbn | services/openaiService.backup.ts:146 | the cleaned ISBN holds, in their original order, every copy of each digit and of X in either case, and no other character |
| QuizGeneration.CleanIsbnExactly | services/openaiService.backup.ts:160 | every digit and X keeps all its occurrences and every other character loses them all |
| QuizGeneration.CleanIsbnIdempotent | services/openaiService.backup.ts:146 | cleaning a cleaned ISBN changes nothing |
| QuizGeneration.RecognizedHangul | services/openaiService.backup.ts:724-729 | the recognised text keeps exactly the Hangul jamo and syllables of the reply, in order and with their multiplicities; a missing reply gives "" |
| QuizGeneration.RecognizedHangulShape | services/openaiService.backup.ts:724-727 | trimming first makes no difference, and recognising the result again keeps it |
| Shuffle.NextRng | services/minigameService.ts:49 | the generator's next state is below the modulus 233280 |
| Shuffle.SeededIndex | services/minigameService.ts:50 | the seeded swap index never exceeds the position being filled |
| Shuffle.SeededIndexBound | services/minigameService.ts:50 | `floor(rng / 233280 * (i + 1))` is at most `i` for every state below the modulus |
| Shuffle.RandomIndex | services/minigameService.ts:56 | the random swap index never exceeds the position being filled |
| Shuffle.Swap | services/minigameService.ts:51 | exchanging two elements keeps the length |
| Shuffle.SwapPermutes | services/minigameService.ts:51 | exchanging two elements keeps the multiset of elements |
| Shuffle.SeededPassPermutes | services/minigameService.ts:47-52 | the seeded loop keeps the length and the multiset of elements |
| Shuffle.RandomPassPermutes | services/minigameService.ts:55-58 | the unseeded loop keeps the length and the multiset of elements |
| Shuffle.ShuffledPermutes | services/minigameService.ts:43-61 | the shuffle only reorders: same length, same elements with the same multiplicities |
| Shuffle.SeededIsDeterministic | services/minigameService.ts:45-52 | with a seed the order depends only on the seed and the input, not on any random draw |
| Shuffle.ShuffleArray | services/minigameService.ts:43-61 | the copy shuffled in place is `Shuffled` of the input, a permutation of it, and the input is not changed |
| Shuffle.SwapCells | services/minigameService.ts:51 | exchanging two array cells exchanges the two elements of its contents |
| Shuffle.SeededSwaps | services/minigameService.ts:47-52 | the in-place seeded loop leaves the array holding the seeded pass of its old contents |
| Shuffle.RandomSwaps | services/minigameService.ts:55-58 | the in-place unseeded loop leaves the array holding the unseeded pass of its old contents |
| Strings.Trim | services/minigameService.ts:294-299 | the trimmed text is the slice of the input between its leading and trailing white space: only white space lies outside it, and it neither starts nor ends with white space |
| Strings.TrimBlank | services/openaiService.backup.ts:457 | trimming leaves nothing exactly when every character is white space |
| Strings.TrimIdempotent | src/components/KoreanStudyView.tsx:196-197 | text without white space at either end is its own trim, so trimming twice is trimming once |
| Strings.EqualLengthContainment | src/components/KoreanStudyView.tsx:199 | between two texts of the same length, containment either way is equality |
| Strings.ToLower | backend/app.py:615 | lower-casing keeps the length and maps each character by itself |
| Strings.ToLowerIdempotent | backend/app.py:917 | lower-casing twice is lower-casing once |
| Strings.ReplaceAll | src/contexts/LanguageContext.tsx:71 | text without the pattern is left unchanged |
| Strings.ReplaceAllFirst | src/contexts/LanguageContext.tsx:71 | at the first occurrence of the pattern the text before it is copied, the occurrence replaced, and the scan goes on after it |
| Strings.FirstOccurrence | src/contexts/LanguageContext.tsx:71 | a text holding the pattern splits at the first occurrence: before it no occurrence starts |
| Strings.Split | src/contexts/LanguageContext.tsx:55 | splitting gives at least one piece and no piece contains the separator |
| Strings.SplitJoin | services/naverService.ts:115 | the pieces joined back with the separator give the original text |
| Strings.HangulOnly | src/components/KoreanStudyView.tsx:192 | the result keeps exactly the Hangul jamo and syllables of the input, in order and with their multiplicities |
| Strings.HangulOnlyIdempotent | services/openaiService.backup.ts:727 | filtering the Hangul twice is filtering once |
| Strings.HangulOnlyKeepsHangul | services/openaiService.backup.ts:727 | a text made only of Hangul is kept whole |
| Strings.HangulOnlyIgnoresTrim | services/openaiService.backup.ts:724-727 | trimming before the filter makes no difference, since white space is never Hangul |
| Strings.NatToStringRoundTrip | services/openaiService.backup.ts:602 | the decimal text of a count reads back as that count |
| VocabularyView.InitialSelection | src/components/VocabularyView.tsx:14 | the first folder is selected when there is one, and nothing otherwise |
| VocabularyView.DefaultSelection | src/components/VocabularyView.tsx:19-23 | an existing selection is kept; with none, the first folder is selected when folders exist |
| VocabularyView.DefaultSelectionStable | src/components/VocabularyView.tsx:19-23 | with non-empty folder ids the effect settles: a second run changes nothing |
| VocabularyView.AddFolder | src/components/VocabularyView.tsx:33-43 | a blank name changes nothing; otherwise an empty folder with the trimmed name and the new id is appended after the unchanged folders |
| VocabularyView.AddFolderKeepsCount | src/components/VocabularyView.tsx:33-43 | adding a folder does not change the number of saved words |
| VocabularyView.WithoutFolder | src/components/VocabularyView.tsx:52 | the folders with other ids remain in their order, each with every copy it had, and no folder with the id remains |
| VocabularyView.DeleteFolder | src/components/VocabularyView.tsx:45-58 | the last folder is never deleted and an unconfirmed deletion changes nothing; a confirmed one drops the folders with that id and moves a selection of the deleted folder to the first remaining one, or to none |
| VocabularyView.DeleteFolderForgets | src/components/VocabularyView.tsx:52-56 | after a confirmed deletion no folder carries the id and the selection never names it |
| VocabularyView.WithoutWord | src/components/VocabularyView.tsx:65 | the words with other ids remain in their order, each with every copy it had, no word with the id remains, and as many words go as carried the id |
| VocabularyView.IdCount | src/components/VocabularyView.tsx:65 | no more words carry the id than there are words |
| VocabularyView.DeleteWord | src/components/VocabularyView.tsx:60-71 | the words with the id leave the selected folder; its id and name and every other folder are kept |
| VocabularyView.DeleteWordCount | src/components/VocabularyView.tsx:60-71 | deleting a word never increases the number of saved words |
| VocabularyView.DeleteWordCountFrom | src/components/VocabularyView.tsx:63-68 | folders that each lost words hold no more words in total |
| VocabularyView.MoveWord | src/components/VocabularyView.tsx:77-101 | nothing happens without a word or a selection; a move is refused exactly when the first folder with the destination id holds a word with the same text; otherwise the selected folder loses the word's id, another folder with the destination id gains the word at its end, and every other folder is kept |
| VocabularyView.MoveWordKeepsCount | src/components/VocabularyView.tsx:87-97 | moving a word between two different folders, with distinct folder ids and the word's id once in the source, keeps the number of saved words |
| VocabularyView.MovedBetween | src/components/VocabularyView.tsx:87-97 | the result of a move between two folders has as many folders as before |
| VocabularyView.MovedCount | src/components/VocabularyView.tsx:87-97 | removing one word from one folder and appending it to another keeps the total |
| VocabularyView.MovedFolders | src/components/VocabularyView.tsx:87-97 | with distinct folder ids a move rebuilds exactly the source and the destination folders |

## Left out

- Network and model calls: the OpenAI, Gemini, Naver, Aladin, Google Books and Open Library requests, the Flask routes' request and response handling, and `subprocess`. The replies these calls would produce are parameters of the model (`None` for a failed call).
- Machine-learning models: TrOCR, EasyOCR, Whisper and the ko-sroberta embeddings with `mean_pooling`, `cosine_similarity` and the `similar_words` ranking. They are floating-point computations in foreign code; the recognised text or transcription is an input.
- JSON extraction by regular expression plus `JSON.parse` / `json.loads` (`src/services/geminiService.ts:15-28`, `backend/app.py:1043-1062`). The parsed values are inputs.
- Bestsellers.LevelBestsellers: `extract_series_name` (`backend/app.py:859-882`) is a set of regular expressions and is the parameter `series`. The several Aladin queries (`backend/app.py:837-845`) are flattened into one list of items. An `isbn13` field that is present but null is not distinguished from a missing one. The exception fallback after `backend/app.py:1006` is not modelled.
- BookMatch.SearchBest: the construction of the search queries (`backend/app.py:1154-1173`) is left out; the queries' replies are the input. The record returned by the ISBN-direct branch is not built field by field.
- Google sign-in and sign-up through Firebase (`signupWithGoogle`, `loginWithGoogle`), including the account overwrite in `signupWithGoogle`.
- AuthService.AuthStore.Signup: a failure of the store's write (`saveUsers`) is not modelled; writes always succeed.
- Browser APIs: canvas drawing, MediaRecorder, speech synthesis and recognition, FileReader and `atob`. Local storage is a field or a map.
- React rendering, `setTimeout` sequencing and `alert`. `confirm` is a boolean input and `Date.now()` a parameter.
- Strings.ToLower: lower- and upper-casing map only the ASCII letters, whereas JavaScript's `toLowerCase`/`toUpperCase` and Python's `lower`/`upper` map every Unicode letter.
- Strings.Trim: JavaScript string lengths and `charAt` count UTF-16 code units; the model counts characters, so lengths agree only for text in the Basic Multilingual Plane, which includes all Hangul.
- Minigame.GameEngine.GetNextQuestion: the `percentage` of `quiz_complete` (`services/minigameService.ts:419`) is floating point and is not reported. The accuracy shown in `components/MinigameView.tsx:351` is left out too.
- EditDistance.SimpleStringSimilarity: the ratio is returned as its integer numerator and denominator, not as the floating-point quotient. The similarity percentage and its ≥ 70 threshold (`services/openaiService.ts:296-303`) are floating point and are left out.
- KoreanStudyView.GroupProgress: `Math.round` of the floating-point quotient is modelled by exact rounding half up of the rational `done / total * 100`; the floating-point error of the division is not modelled.
- Shuffle.SeededIndex: `Math.floor(rng / 233280 * (i + 1))` is computed in exact integer arithmetic. Seeds are natural numbers; negative or fractional seeds are not modelled.
- Shuffle.RandomIndex: `Math.random` is an arbitrary function of the loop position supplied by the caller, so an unseeded shuffle is an arbitrary sequence of swaps. Its outcome is known only to be a permutation.
- QuizGeneration.SelectWords: `words.sort(() => 0.5 - Math.random())` is not a real comparator. The order it leaves is the parameter `shuffled`, known only to be a permutation of the words. A negative `count` is not modelled (`nat`).
- The flashcard deck's own `Math.random` shuffle (`src/components/FlashcardModal.tsx:19`) and the random order of trending words (`components/DictionaryView.tsx:51`) are not real comparisons. The deck shuffle is not modelled; the trending order is the parameter `order`, known only to be a permutation of the pool.
- Minigame.TranslateMeaning: the OpenAI translation is the parameter `reply`. The target-language table and the request are left out.
- LanguageContext.Lookup: a path walks only through objects. Indexing into an array or a string with a key is not modelled and yields `undefined`.
- LanguageContext.Placeholder: each option key is used literally. The source builds an unescaped regular expression from it, so keys containing regex metacharacters are not modelled.
- The `QuizQuestion` declaration is not part of this model. The datatype of that name in `QuizGeneration` holds only the fields the validations read and write.
- Prompts.EnglishLevelDescription: a level outside the three keys yields the text `undefined` in the source prompt. The model returns `None`.
- App.Repair: stored progress values are assumed to be valid lesson statuses.
- BookMatch.CleanGeminiIsbn: Python's `strip` (`backend/app.py:1109`) is modelled with JavaScript's white-space set, the one `Strings.Trim` uses. Python also strips U+001C–U+001F and U+0085, and it keeps U+FEFF.
- LanguageContext.Fill: JavaScript's `replace` expands `$&`, `$$`, `` $` `` and `$'` in the replacement text (`src/contexts/LanguageContext.tsx:71`). The model inserts the value's text literally, so values containing `$` are not modelled.
- Folders.CreateFolderWith: the source calls `Date.now()` twice (`components/DictionaryView.tsx:214-216`), once for the folder id and once for the word id. The model takes one `newId` for both.
- `handleTabClick` (`src/components/KoreanStudyView.tsx:369-372`) is never referenced: the tab buttons call `setActiveTab` directly, which `KoreanStudyView.LessonDetail.ShowTab` models. Switching tabs therefore marks no practice done.
- VocabularyView.DeleteWordCount: states only that the number of saved words does not grow, not by how much it shrinks.
- Files with no logic to model: `backend/app-light.py`, `backend/mcp_proxy.js`, `src/services/mcpService.ts`, `services/aladinService.ts`, `contexts/AuthContext.tsx`, `firebase.config.ts`, `components/HomeView.tsx`, `components/BottomNav.tsx`, `src/components/auth/LoginView.tsx` and `components/shared/Loader.tsx`. They are plumbing, wrappers or pure UI.
