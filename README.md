# Dental reflection-removal survey: a verified model of its core

`survey.py` is a Streamlit questionnaire in which a clinician compares intra-oral camera images
before and after two reflection-removal methods ("Method A" and "Method B"). Under the page
layout sits a small amount of deterministic logic, which this project models in Dafny and proves
properties of:

- **Case numbers in file names** (`filenames.dfy`, module `Filenames`). `extract_number` returns
  the value of the first maximal run of decimal digits of a name, or 0 when the name has none.
- **The case catalogue** (`catalog.dfy`, module `Catalog`). `get_image_files` keeps the names of
  the Original folder that end, case-insensitively, in `.png`, `.jpg`, `.jpeg`, `.bmp` or `.tiff`.
  It then sorts them stably by case number. A missing folder gives an empty catalogue.
- **Image resolution** (`resolver.dfy`, module `Resolver`). `load_image` opens the file of the same
  name in a variant folder. Failing that, it opens the first listed file with the same case number
  and a `.png`, `.jpg` or `.jpeg` suffix. Failing that, it shows a 300 by 300 grey placeholder.
  The choice is a function `Resolve`, and the early-returning scan is a method `LoadImage` proved
  equal to it.
- **Answer keys** (`keys.dfy`, module `SurveyKeys`). The survey stores answers under string keys:
  - four identity fields;
  - sixteen PART 2 fields;
  - `Case_<position>_File` and `Case_<position>_Choice` for each PART 1 case.

  The model keeps a key as the structured value it names (`Key`). `Spelling` gives the exact
  string the survey writes. `SpellingInjective` proves that two different keys are never spelled
  alike, so a map over `Key` holds the same information as the survey's string-keyed dictionary.
  The same fact shows that the results file gets one column per stored answer.
- **The session** (`session.dfy`, module `SurveySession`). A `Session` object has a page, the open
  PART 1 case, the answers so far and the fixed catalogue. It has one method per evaluator action:
  - submit the intro form;
  - "ready";
  - "previous";
  - "next";
  - submit the PART 2 form.

  `Valid()` is the invariant every method keeps:
  - the catalogue is non-empty and the case index lies inside it;
  - the identity fields are stored once the intro form is accepted;
  - every stored key belongs to the survey;
  - the file stored for each case is the catalogue entry at that position;
  - every case up to the open one has been answered;
  - all sixteen PART 2 fields are stored on the last page.

  `SaveData` models the name of the results file and its column set.

Directory listings, folder existence, the clock and the widget values are parameters of the
model. An action whose button is not shown on the current page leaves the session unchanged.

## Model

| member | source | states |
|---|---|---|
| Filenames.ExtractNumber | survey.py:72-75 | a name without digits gives 0; a name whose first maximal run of digits is s[i..j] gives the value of that run |
| Filenames.ExtractNumberSpec | survey.py:74-75 | a name with a digit has a first maximal run of digits, and extract_number returns its value |
| Filenames.FirstRunUnique | survey.py:74 | the first maximal run of digits of a name is unique |
| Filenames.FirstDigit | survey.py:74 | the position found is the first digit at or after the start, or the end of the name when there is none |
| Filenames.RunEnd | survey.py:74 | the position found ends the run of digits: every character before it is a digit and the next one is not |
| Filenames.Decimal | survey.py:229 | the f-string spelling of a number is non-empty, all digits, and has no leading zero when the number is positive |
| Filenames.DecimalValue | survey.py:75 | int() of the decimal spelling of n is n |
| Filenames.ExtractNumberOfDecimal | survey.py:72-75 | a number written between a digit-free prefix and a suffix that does not continue the run is the number extract_number reads back |
| Catalog.LowerChar | survey.py:85 | lower-casing one character leaves no capital: a capital becomes the small letter at the same position of the alphabet, anything else is unchanged |
| Catalog.Lower | survey.py:85 | `lower()` keeps the length, leaves no capital, keeps every other character, and maps each capital to the small letter at its alphabet position |
| Catalog.ImageFilesCount | survey.py:85 | the comprehension (`ImageFiles`) keeps every image file as often as it is listed and drops every other name |
| Catalog.ImageFilesAppend | survey.py:85 | the comprehension keeps listing order: filtering a concatenation filters each part in turn |
| Catalog.Insert | survey.py:86 | inserting adds exactly the inserted name to the multiset of names |
| Catalog.InsertSorted | survey.py:86 | insertion into a list ordered by case number keeps it ordered |
| Catalog.InsertWithNumber | survey.py:86 | insertion puts the new name before the names that share its case number |
| Catalog.SortByNumber | survey.py:86 | the sort is a permutation of its input, ordered non-decreasingly by case number |
| Catalog.SortByNumberStable | survey.py:86 | the sort is stable: names with the same case number keep their relative order |
| Catalog.GetImageFiles | survey.py:77-87 | a missing folder gives []; otherwise each image file of the listing appears as often as it is listed, no other name appears, and the result is ordered by case number |
| Catalog.GetImageFilesStable | survey.py:85-86 | catalogue entries sharing a case number keep their listing order |
| Resolver.FirstNumberMatch | survey.py:101-104 | the position found is the first listed file with the target case number and a .png/.jpg/.jpeg suffix, or the listing's length when there is none |
| Resolver.Resolve | survey.py:89-107 | the exact name is chosen iff it is listed in an existing folder; otherwise the first number match in listing order; otherwise (and only then) the 300x300 grey placeholder |
| Resolver.LoadImage | survey.py:89-107 | the early-returning scan picks the image Resolve describes |
| Resolver.BmpAndTiffNeverMatched | survey.py:103 | a .bmp or .tiff file is never picked by the case-number fallback |
| Resolver.CatalogFileResolvesExactly | survey.py:94-97 | every catalogue entry resolves to itself in the Original folder it was listed from |
| SurveyKeys.FixedKeysPartition | survey.py:313-320 | every fixed field is either an identity field or one of the sixteen PART 2 fields, never both |
| SurveyKeys.FixedKeysDisjoint | survey.py:158-161 | the PART 2 form never overwrites an identity field |
| SurveyKeys.RatingNameInjective | survey.py:314-316 | the twelve rating keys name their method and aspect unambiguously |
| SurveyKeys.FieldNameInjective | survey.py:313-320 | distinct fixed fields have distinct key strings |
| SurveyKeys.Spelling | survey.py:229-230 | the string of a key is non-empty, and it starts with 'C' exactly when the key is a case key, so no fixed key is spelled like a case key |
| SurveyKeys.CaseKeyParts | survey.py:229-230 | a case key gives back its position, read by extract_number, and its field |
| SurveyKeys.CaseKeyInjective | survey.py:229-230 | two case keys are equal only for the same position and field |
| SurveyKeys.CaseSpellingInjective | survey.py:229-230 | the File and Choice keys of all positions are pairwise distinct |
| SurveyKeys.SpellingInjective | survey.py:111 | distinct keys have distinct spellings, so no two answers share a column of the results file |
| SurveyKeys.ColumnCount | survey.py:111 | the results file has exactly one column per stored answer |
| SurveySession.Part2Entries | survey.py:313-320 | the PART 2 form writes an answer under every fixed key except the four identity fields, and under no other key |
| SurveySession.EvaluatorName | survey.py:113 | once the intro form is accepted, the name is the non-empty name entered; with no stored name it is "Unknown" |
| SurveySession.ExportFileName | survey.py:114 | the evaluator's name (or "Unknown") can be read back out of the results file name |
| SurveySession.AnsweredGrows | survey.py:313 | adding answers never un-answers a case |
| SurveySession.RecordCase | survey.py:229-230 | "next" stores the catalogue file of the open position under `Case_{n}_File` and the evaluator's choice under `Case_{n}_Choice` (overwriting both on a revisit), adds exactly those two keys and keeps every other key and value, every earlier answer and the file-per-position record |
| SurveySession.Session.Valid | survey.py:156-320 | the session invariant; it implies that once PART 1 is over the file column of every case holds the catalogue entry at its position, and that on the last page every fixed field is stored |
| SurveySession.Session.constructor | survey.py:119-121 | a new session is on the intro page, at case 0, with no answers |
| SurveySession.Session.SubmitIntro | survey.py:156-165 | with a non-empty name and affiliation on the intro page, the four identity fields are written and the instruction page opens; otherwise nothing changes |
| SurveySession.Session.Ready | survey.py:179-181 | the instruction page leads to PART 1; elsewhere nothing changes; like every action, it moves the page forward by at most one stage and never back |
| SurveySession.Session.Previous | survey.py:219-222 | on a PART 1 case after the first, the index decreases by exactly one; otherwise nothing changes |
| SurveySession.Session.Next | survey.py:224-237 | in PART 1, the case's file and choice are stored under its 1-based position; the index advances unless the case is the last, in which case PART 2 opens with the index unchanged |
| SurveySession.Session.SubmitPart2 | survey.py:312-322 | on the PART 2 page, the sixteen answers are added and the last page opens; otherwise nothing changes |
| SurveySession.Session.ShowCase | survey.py:185-196 | the three images of the open case are the ones Resolve gives for the Original, Method A and Method B folders |
| SurveySession.Session.SaveData | survey.py:109-116 | the results file name carries the evaluator's name, which after the intro is the non-empty name entered; the file has a column for exactly the stored keys, one per key |
| SurveySession.Open | survey.py:123-128 | an empty catalogue stops the survey; otherwise a valid session over the catalogue starts on the intro page |
| SurveySession.FirstCaseSpelling | survey.py:229-230 | the first case's keys are spelled Case_1_File and Case_1_Choice |
| SurveySession.SingleCaseRecord | survey.py:156-321 | a one-case survey ends with every fixed field and the case's two keys, and no answer overwrites another: every identity value, both case values and every PART 2 value survive |
| SurveySession.CompleteSingleCase | survey.py:119-333 | a full one-case run stores exactly those keys with the values entered, names the results file after the evaluator, and writes a column for exactly the stored keys, among them Case_1_File and Case_1_Choice; actions after the last page change nothing |

## Left out

- Streamlit rendering is not modelled: CSS, titles, columns, image display, balloons, `st.rerun`
  and `st.stop`. An action is a method call, and the widget values are its parameters.
- The file system is replaced by a `Folder` value: a presence flag and a listing. `os.listdir`
  is the listing and `os.path.join` is not modelled. The exact test of `load_image`
  (`os.path.exists` on the joined path) is modelled as membership in the listing. That assumes a
  case-sensitive file system that does not normalise names and has no broken links. On a
  case-insensitive file system (default Windows or macOS), `CASE1.BMP` passes the exact test for
  `case1.bmp`, whereas `Resolve` gives the placeholder. A directory that happens to carry a
  listed name, and path separators inside names, are not modelled either.
- PIL is not modelled. `Image.open` becomes the tag `Exact` or `Matched`, and `Image.new` becomes
  `Placeholder`. A file that exists but does not open as an image is outside the model.
- pandas and the CSV write (`utf-8-sig`) are not modelled. The results file is its name plus the
  set of its column names. Column order follows dict insertion order, and the model keeps answers
  in a map, so that order is not captured.
- `datetime.now()` is not modelled; the timestamp string is a parameter of `SaveData`.
- Filenames.ExtractNumber, Filenames.ExtractNumberSpec: digits are the ASCII digits '0'..'9'. Python's `\d` also matches
  other Unicode decimal digits, and `int()` refuses strings over 4300 digits; neither is modelled.
- Catalog.GetImageFiles: `lower()` is modelled on ASCII letters only. Python lower-cases every
  Unicode letter.
- Catalog.SortByNumber: the sort is an insertion sort on a sequence. It keeps Python's contract
  (stable, ordered by key) but does not work in place.
- Widget ranges are modelled as types. The sliders are the `Likert` type (1 to 5). The radio
  buttons and the adoption select-slider are enumerations whose labels are the source's strings.
  The widgets' default values are not modelled.
- The PART 1 radio button remembers its last value per file (its widget key). This is UI state; the
  choice is simply a parameter of `Next`.
- The source calls `save_data` on every render of the last page. Each call writes a file named
  with a fresh timestamp. The model follows the code: `SaveData` changes no session state and can
  be called any number of times. "Exported exactly once" is therefore not a property of the model.
- Case numbers are not always positive: a file name without digits has case number 0, as the
  code computes, and the model follows the code.
- SurveyKeys.FixedKeysDisjoint: the count of fixed keys (4 identity and 16 PART 2) is implied by
  the datatype `Field` but is not proved as a set cardinality.
