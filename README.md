# English composition trainer: a verified model of its core

`english_app.py` is a Streamlit app for practising English composition. It shows a
Korean sentence and the student types the English. A language model grades the answer
and a string-similarity score stands in when the model is unavailable. A wrong answer
sends the student into a correction step, where the reference answer has to be copied
out. The question is also recorded in an "incorrect" worksheet. A student can
"graduate" a question into a "mastered" worksheet, which hides it from later sessions.
Questions come from a line-oriented quiz bank. There, `[Major > Middle > Minor]`
headers set the unit, `#text` lines add a learning note to the unit, and
`english|korean` lines are questions.

This project models the core of that program in Dafny and proves its properties:

- `Text` (`text.dfy`): the Python string operations the program relies on, over
  `seq<char>`. These are `strip()` with Python's whitespace set, `split` and `join`
  on one character, and `lower()`/`upper()`.
- `QuizBank` (`quiz_bank.dfy`): the loader `load_quiz_data`.
  - `Load` is a fold of each line's classification over the lines.
  - `LoadQuizData` is the loop of the source, proved equal to `Load`.
  - A line-by-line reference description gives the unit in force, the questions and
    the joined notes. Lemmas prove the loader meets it.
- `Grading` (`grading.dfy`):
  - the answer normaliser of `check_similarity_simple`, proved equal to a one-pass
    reference and shown insensitive to case, spaces and `. , ? !`;
  - the parse of the model's reply in `check_with_ai`;
  - the three-way accept/reject decision of `process_submit`.
- `Progress` (`progress.dfy`): the two worksheets as a `Table` class. `Add` is
  `add_to_sheet`: it appends unless a row with the same (key, eng) is there. `Remove`
  is `remove_from_sheet`: it deletes the first such row. Both use the linear scan
  `Find`.
- `PoolFilter` (`pool_filter.dfy`): the normal-mode pool. Its two loops build the
  mastered fingerprints and then the filtered pool. Lemmas show the pool is exactly
  the bank's questions of the selected unit that are not mastered, in bank order.
- `Quiz` (`quiz.dfy`): the session state machine.
  - The pure `State` transitions are `Next`, `Submit`, `Graduate`, `ShowUnits`,
    `ShowIncorrectNotes` and `EnsureQuestion`.
  - A `Session` class holds the session fields and the two `Table` objects. Each of
    its methods is proved to perform the corresponding transition.
  - Lemmas state what each step does, that the session cycles through the pool, and
    that the tables never gain duplicate identities.

The language model and `difflib.SequenceMatcher` are outside the model and enter as
parameters:

- `reply: Option<string>` is the model's reply text. `None` stands for the exception
  path of `check_with_ai`.
- `ratio: (string, string) -> real` is `SequenceMatcher(None, a, b).ratio()`. The only
  assumptions about it, given by `Grading.IsRatio`, are that it lies in [0, 1] and is 1
  on equal strings.

The bank file's contents enter as a sequence of lines. The worksheet rows enter as the
`Table` objects' `rows`.

Three behaviours of the code that the model reproduces as written:

- A reply that contains neither 'O' nor 'X' counts as a rejection
  (`english_app.py:165`). It does not fall back to the similarity.
- The similarity required to leave correction is computed by `check_similarity_simple`,
  so it is the normalised similarity (`english_app.py:223-224`), not a raw one.
- Line errors are not caught: an entry line with two or more '|' makes
  `eng, kor = line.split("|")` raise. Only `FileNotFoundError` is caught, so the whole
  load fails (`english_app.py:125`, `127`). The model reports this as
  `Err(TooManyFields(i))` for the first such line `i`.

## Model

| member | source | states |
|---|---|---|
| Text.StripIsSlice | english_app.py:112 | `strip()` returns a slice of the line, drops only whitespace, and the result neither starts nor ends with whitespace |
| Text.StripEmptyIff | english_app.py:195 | `not s.strip()` holds exactly when every character of `s` is whitespace |
| Text.StripKeeps | english_app.py:162 | a non-whitespace character is in `s.strip()` exactly when it is in `s` |
| Text.UpperContains | english_app.py:162-163 | 'O' is in `t.upper()` exactly when 'O' or 'o' is in `t` |
| Text.SplitPieces | english_app.py:125 | splitting on '\|' yields one piece more than there are separators, no piece holds the separator, and joining the pieces gives the line back |
| Text.SplitJoin | english_app.py:115 | splitting `sep.join(parts)` gives `parts` back when no part holds the separator |
| QuizBank.AddNote | english_app.py:122-123 | a note is appended after a blank line when the unit already has one, and is the unit's first note otherwise; other units are untouched |
| QuizBank.LoadQuizData | english_app.py:104-129 | the parsing loop returns `Load(lines)`: the fold of each line's effect over the lines |
| QuizBank.ReadLine | english_app.py:112-126 | one pass of the loop body has exactly the effect of the line's classification on the loader's state, keeps `current_key` equal to the unit's key, and fails exactly on an entry with more than one '\|' |
| QuizBank.ScanStopsForGood | english_app.py:125 | once a line has failed, later lines change nothing |
| QuizBank.ScanStops | english_app.py:124-125 | the load fails exactly when some entry line holds more than one '\|', and the error names the first such line |
| QuizBank.ScanMeaning | english_app.py:111-126 | while loading, the unit is the last header's (or 기타-기타-전체); the questions are one per entry line, tagged with the unit in force there, in file order; a unit has notes exactly when a note line falls under it, and its notes are those texts joined by a blank line |
| QuizBank.LoadMeaning | english_app.py:104-129 | the loaded bank, described line by line: an error exactly when an entry cannot be unpacked, otherwise the questions and notes of the reference description |
| QuizBank.BlankLines | english_app.py:112-113 | a line is skipped as blank exactly when it is all whitespace |
| QuizBank.ContextBeforeHeaders | english_app.py:107 | before any header the unit is 기타-기타-전체 |
| QuizBank.HeaderParts | english_app.py:115-118 | `[a>b>c]` names the unit of the stripped parts; with fewer parts the middle and minor units are 전체 |
| QuizBank.HeaderLine | english_app.py:114-115 | a stripped line between brackets is a header over its inside |
| QuizBank.NoteLine | english_app.py:120-121 | a stripped line starting with '#' is a note of the rest, stripped |
| QuizBank.EntryLine | english_app.py:114-126 | a stripped line that is neither a header nor a note and splits into exactly two pieces on '\|' is an entry of the two stripped pieces |
| QuizBank.SmallBank | english_app.py:104-129 | the bank `[A>B>C]`, `#note`, `hello\|안녕` loads as one question of unit A-B-C and the note "note" for that unit |
| Grading.Delete | english_app.py:137 | `s.replace(c, "")` leaves no `c` and keeps every other character |
| Grading.Normalise | english_app.py:137-138 | the normal form holds none of space, `.`, `,`, `?`, `!` and no upper-case letter |
| Grading.NormaliseConcat | english_app.py:137-138 | the normaliser works character by character: it distributes over concatenation |
| Grading.NormaliseIsCanonical | english_app.py:137-138 | the five chained `replace` calls and `lower()` equal a one-pass reference that drops each ignored character and lowers the rest |
| Grading.NormaliseIgnoresPunctuation | english_app.py:137-138 | inserting a space or one of `. , ? !` anywhere leaves the normal form unchanged |
| Grading.NormaliseIgnoresCase | english_app.py:137-138 | replacing a letter by its other case leaves the normal form unchanged |
| Grading.NormaliseIdempotent | english_app.py:137-138 | normalising twice is normalising once |
| Grading.Similarity | english_app.py:136-139 | the similarity lies in [0, 1] and is 1 when the normal forms agree |
| Grading.SimilarityMaximal | english_app.py:136-139 | answers that differ only in case, spaces and `. , ? !` have similarity 1 |
| Grading.ParseReply | english_app.py:161-166 | the verdict is unavailable exactly when the call failed |
| Grading.ParseReplyAccepts | english_app.py:162-165 | a reply is read as correct exactly when it contains 'O' or 'o', and as incorrect otherwise, including a reply with neither 'O' nor 'X' |
| Grading.Decide | english_app.py:204-209 | a "correct" verdict accepts, an "incorrect" one rejects, and without a verdict the answer is accepted exactly when the score reaches 95 |
| Grading.FallbackGrade | english_app.py:202-209 | without a verdict, similarity 0.95 accepts, 0.94 rejects, and equality up to case, spaces and `. , ? !` accepts |
| Grading.ReplyOverridesSimilarity | english_app.py:201-206 | with a reply, the grade is "contains 'O' or 'o'", whatever the similarity |
| Progress.FirstMatch | english_app.py:88-91 | the position found is the first row with the same key and English sentence, and there is none exactly when no row has that identity |
| Progress.Find | english_app.py:87-91 | the loop over the existing rows returns the first matching position |
| Progress.Table.Add | english_app.py:70-78 | the table after `add_to_sheet` is `Added(old rows, q)`: unchanged if the identity is present, else `q` appended |
| Progress.Table.Remove | english_app.py:82-91 | the table after `remove_from_sheet` is `Removed(old rows, q)` |
| Progress.AddIdempotent | english_app.py:76-78 | after adding, the identity is present, and adding again changes nothing |
| Progress.AddKeepsUnique | english_app.py:76-78 | adding never duplicates an identity |
| Progress.RemoveFirstOnly | english_app.py:88-91 | removing deletes exactly the first row with the identity (table one shorter, other rows in order), and nothing when there is none |
| Progress.RemoveClears | english_app.py:88-91 | in a duplicate-free table, removing a question leaves no row with its identity and keeps the table duplicate-free |
| Progress.RemoveUndoesAdd | english_app.py:70-91 | removing a question just added to a table without it gives the table back |
| PoolFilter.MasteredSignatures | english_app.py:286-293 | the loop's fingerprint set equals `Signatures(mastered)` |
| PoolFilter.SignaturesMeaning | english_app.py:286-293 | a fingerprint is recorded exactly when some mastered row with non-empty stripped key and sentence has it |
| PoolFilter.SignatureSource | english_app.py:290-293 | every recorded fingerprint comes from such a row |
| PoolFilter.SignatureRecorded | english_app.py:290-293 | every such row's fingerprint is recorded |
| PoolFilter.FilterPool | english_app.py:295-310 | the filtering loop, with its `continue`s, returns `Pool(bank, sel, show, mastered)` |
| PoolFilter.FilteredIsSubsequence | english_app.py:295-310 | the pool is the bank restricted to strictly increasing positions: each pooled question is the bank's question at its position and is kept, and every kept position appears |
| PoolFilter.PoolMembers | english_app.py:295-310 | a question is in the pool exactly when it is in the bank and kept |
| PoolFilter.PoolExcludesMastered | english_app.py:286-310 | every pooled question is in the selected units, and unless mastered ones are shown, none matches a fingerprinted mastered row up to surrounding whitespace |
| PoolFilter.WholeBank | english_app.py:298-310 | with every unit 전체 and mastered questions shown, the pool is the whole bank |
| Quiz.NextEffect | english_app.py:174-186 | an empty pool changes nothing; otherwise the question is the pool entry at the index modulo the pool size, the step is answering, the input and the wrong answer are cleared, and the index moves on by one |
| Quiz.AdvanceCycles | english_app.py:179-186 | after `n` moves the question is the pool entry at `(index + n - 1) mod size` |
| Quiz.WrapsAround | english_app.py:179-186 | after as many moves as the pool holds, the same question comes round again |
| Quiz.BlankAnswer | english_app.py:195-199 | a whitespace-only answer goes to correction, records the question as incorrect, clears the input, and does not consult the model: the reply has no effect |
| Quiz.WrongAnswer | english_app.py:215-219 | a rejected answer goes to correction, remembers the answer, records the question as incorrect and clears the input |
| Quiz.RightAnswer | english_app.py:211-214 | an accepted answer completes the question; only in the review mode does it leave the incorrect table |
| Quiz.ReplyDecides | english_app.py:201-216 | with a reply, the step becomes completed exactly when the reply contains 'O' or 'o', and correction otherwise |
| Quiz.FallbackDecides | english_app.py:202-216 | without a reply, the step becomes completed exactly when the similarity reaches 95 percent |
| Quiz.CorrectionStep | english_app.py:222-228 | in correction, the session moves to the next question exactly when the similarity reaches 0.98 and is otherwise unchanged; copying the reference always moves on |
| Quiz.CompletedStep | english_app.py:230-231 | once completed, a submit moves to the next question |
| Quiz.Graduation | english_app.py:233-238 | graduating adds the question to the mastered table, removes it from the incorrect table, and moves on |
| Quiz.FilterReset | english_app.py:312-322 | a changed filter, or a return from the review mode, restarts at the new pool's first question; an unchanged filter keeps the current question |
| Quiz.ReviewStart | english_app.py:259-270 | entering the review mode with a non-empty incorrect table starts at its first row |
| Quiz.InitialConsistent | english_app.py:171-172 | a fresh session over duplicate-free tables is consistent |
| Quiz.NextKeepsConsistent | english_app.py:174-186 | moving on, typing and loading a first question keep the tables duplicate-free and no stale wrong answer while answering |
| Quiz.SubmitKeepsConsistent | english_app.py:188-231 | a submit keeps the session consistent |
| Quiz.GraduateKeepsConsistent | english_app.py:233-238 | graduating keeps the session consistent |
| Quiz.SidebarKeepsConsistent | english_app.py:259-322 | changing the mode or the filter keeps the session consistent |
| Quiz.Session.constructor | english_app.py:171-172 | a new session starts answering with an empty input and no question |
| Quiz.Session.NextQuestion | english_app.py:174-186 | the session performs `Next` |
| Quiz.Session.Type | english_app.py:351 | the text box holds the typed text and nothing else changes |
| Quiz.Session.ProcessSubmit | english_app.py:188-231 | the session and the incorrect table perform `Submit`, and the model is consulted exactly on a non-blank answer in the answering step |
| Quiz.Session.ProcessGraduate | english_app.py:233-238 | the session and both tables perform `Graduate` |
| Quiz.Session.SelectUnits | english_app.py:295-322 | the sidebar in normal mode performs `ShowUnits` |
| Quiz.Session.SelectIncorrectNotes | english_app.py:259-270 | the sidebar in review mode performs `ShowIncorrectNotes` |
| Quiz.Session.LoadFirstQuestion | english_app.py:327 | the main screen loads a first question when there is none |

## Left out

- The Streamlit user interface is not modelled: rendering, toasts, `st.error`,
  `st.stop`, `st.rerun` and the form and button wiring (`english_app.py:243-244`,
  `330-370`). The unit drop-downs' option lists (`english_app.py:272-283`) only feed
  the selection, which the model takes as an input.
- The Google Sheets access is not modelled (`english_app.py:55-99`): the client, the
  worksheet lookup, `append_row` and `delete_rows(i + 2)`. The last one's offset
  accounts for the header row; the model deletes row `i` of `rows`. An exception
  there leaves the sheet unchanged and yields an empty list or an error message; the
  model assumes every sheet call succeeds.
- The gspread cell coercion is not modelled. `get_all_records` turns numeric-looking
  cells into numbers, and `str(...)` does not restore the text: `"007"` becomes `7` and
  then `"7"`, and `"1.50"` becomes `1.5` and then `"1.5"` (`english_app.py:290-291`,
  `303-304`). The duplicate check and the row search compare `r['key']` and `r['eng']`
  with no `str()` at all (`english_app.py:76`, `89`). A numeric cell therefore never
  matches the question's string, so both the de-duplication and the removal miss such
  a row. The model keeps every cell as a string, so it does not show either miss.
- The language model call and its prompt are not modelled (`english_app.py:141-161`).
  The reply text, or `None` for the exception path, is a parameter.
- `SequenceMatcher(...).ratio()` is not modelled (`english_app.py:139`). It is a
  parameter constrained only by `Grading.IsRatio`. Symmetry of the similarity is
  therefore neither assumed nor proved. difflib's ratio is not symmetric even without
  junk, because its greedy longest-match search breaks ties by position:
  `SequenceMatcher(None, 'tide', 'diet').ratio()` is 0.25 and the reverse is 0.5.
- Floating point is not modelled: the scores are `real`s, without the rounding of
  `score * 100`.
- Text.Lower: lowers only the ASCII letters. Python's `str.lower()` also lowers other
  scripts, so the model's normal form differs from the program's on non-ASCII capitals.
- Text.Upper: raises only the ASCII letters. This does not change which replies
  contain 'O'.
- Reading `quiz_data.txt` is not modelled (`english_app.py:109-110`); its lines are a
  parameter. The `FileNotFoundError` path that returns an empty bank
  (`english_app.py:127-128`) is not modelled.
- Quiz.Next: the `q_index` absent check (`english_app.py:177`) is not modelled. The
  model's index always exists and starts at 0.
- Quiz.Graduate: the model allows graduating in any state. The program only shows the
  graduate button in the completed step of the normal mode (`english_app.py:359-362`).
- Quiz.Submit: requires a current question. The program raises a `TypeError` at
  `english_app.py:190` when there is none.
- The learning-note display (`english_app.py:364-370`) only reads the loaded notes,
  which `QuizBank` models.
