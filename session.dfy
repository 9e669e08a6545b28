/** The survey's session: which page is shown, which PART 1 case is open, and the answers
    collected so far, with one method per evaluator action. */
module SurveySession {
  import opened Filenames
  import opened Catalog
  import opened Resolver
  import opened SurveyKeys

  datatype Option<T> = None | Some(value: T)

  /** The five pages, in the order the evaluator meets them. */
  datatype Page = Intro | Instruction | Part1 | Part2 | Finish

  function Stage(p: Page): (k: nat)
    ensures k <= 4
    ensures p == Intro <==> k == 0
    ensures p == Finish <==> k == 4
  {
    match p
    case Intro => 0
    case Instruction => 1
    case Part1 => 2
    case Part2 => 3
    case Finish => 4
  }

  /** A stored answer: text from a text field or radio button, or a whole number from a slider or number field. */
  datatype Value = Text(text: string) | Int(number: int)

  /** The PART 1 radio button. */
  datatype Choice = MethodA | MethodB | NoDifference

  function ChoiceLabel(c: Choice): string {
    match c
    case MethodA => "Method A"
    case MethodB => "Method B"
    case NoDifference => "크게 차이 없음"
  }

  /** Question 3.1 of PART 2. */
  datatype Preference = PreferOriginal | PreferMethodA | PreferMethodB

  function PreferenceLabel(p: Preference): string {
    match p
    case PreferOriginal => "Original"
    case PreferMethodA => "Method A"
    case PreferMethodB => "Method B"
  }

  /** Question 3.3 of PART 2, from very low to very high. */
  datatype Adoption = VeryLow | Low | Moderate | High | VeryHigh

  function AdoptionLabel(a: Adoption): string {
    match a
    case VeryLow => "매우 낮음"
    case Low => "낮음"
    case Moderate => "보통"
    case High => "높음"
    case VeryHigh => "매우 높음"
  }

  /** A slider answer between 1 and 5. */
  type Likert = x: int | 1 <= x <= 5 witness 3

  /** The six sliders asked for one method. */
  datatype Ratings = Ratings(naturalness: Likert, structure: Likert, color: Likert,
                             identify: Likert, accuracy: Likert, time: Likert)

  /** Everything the PART 2 form submits. */
  datatype Part2Answers = Part2Answers(
    methodA: Ratings, methodB: Ratings, preference: Preference,
    reason: string, adoption: Adoption, expertOpinion: string)

  /** The slider of one aspect. */
  function Score(r: Ratings, a: Aspect): Likert {
    match a
    case Naturalness => r.naturalness
    case Structure => r.structure
    case Color => r.color
    case Identify => r.identify
    case Accuracy => r.accuracy
    case Time => r.time
  }

  function RatingsOf(a: Part2Answers, v: Variant): Ratings {
    match v
    case VariantA => a.methodA
    case VariantB => a.methodB
  }

  /** The answer the PART 2 form stores for one of its fields. */
  function Part2Value(a: Part2Answers, f: Field): Value
    requires !IsIntroField(f)
  {
    match f
    case Rating(v, asp) => Int(Score(RatingsOf(a, v), asp))
    case FinalPreference => Text(PreferenceLabel(a.preference))
    case PreferenceReason => Text(a.reason)
    case AdoptionIntent => Text(AdoptionLabel(a.adoption))
    case ExpertOpinion => Text(a.expertOpinion)
  }

  /** The answers the PART 2 form writes: one under every fixed key except the four identity
      fields, and no other. */
  function Part2Entries(a: Part2Answers): (m: map<Key, Value>)
    ensures forall k :: k in m <==> k.Fixed? && !IsIntroField(k.field)
  {
    var m := map k | k in Part2Keys() :: (FixedKeysPartition(k.field); Part2Value(a, k.field));
    assert forall k :: k in m <==> k.Fixed? && !IsIntroField(k.field) by {
      forall k ensures k in m <==> k.Fixed? && !IsIntroField(k.field) {
        if k.Fixed? {
          FixedKeysPartition(k.field);
        }
      }
    }
    m
  }

  /** Every PART 2 field has an answer. */
  ghost predicate Part2Recorded(responses: map<Key, Value>) {
    forall f :: !IsIntroField(f) ==> Fixed(f) in responses
  }

  // ---------------------------------------------------------------- export file name

  /** How an answer is spelled inside an f-string. */
  function Show(v: Value): string {
    match v
    case Text(s) => s
    case Int(n) => if n >= 0 then Decimal(n) else "-" + Decimal(-n)
  }

  /** The identity fields stored when the intro form is accepted. */
  predicate IntroRecorded(responses: map<Key, Value>) {
    && Fixed(Name) in responses && responses[Fixed(Name)].Text? && responses[Fixed(Name)].text != ""
    && Fixed(Affiliation) in responses && responses[Fixed(Affiliation)].Text? && responses[Fixed(Affiliation)].text != ""
    && Fixed(Experience) in responses && Fixed(Specialty) in responses
  }

  /** responses.get('Evaluator_Name', 'Unknown'): once the intro form is accepted, the name entered. */
  function EvaluatorName(responses: map<Key, Value>): (name: string)
    ensures IntroRecorded(responses) ==> name != "" && responses[Fixed(Name)] == Text(name)
    ensures Fixed(Name) !in responses ==> name == "Unknown"
  {
    if Fixed(Name) in responses then Show(responses[Fixed(Name)]) else "Unknown"
  }

  /** Reads the evaluator's name back out of a results file name written at `timestamp`. */
  function ExportedName(fileName: string, timestamp: string): Option<string> {
    var head := "survey_result_";
    var tail := "_" + timestamp + ".csv";
    if |head| + |tail| <= |fileName| && fileName[..|head|] == head && fileName[|fileName| - |tail|..] == tail
    then Some(fileName[|head|..|fileName| - |tail|])
    else None
  }

  /** The name of the results file save_data writes: the evaluator's name can be read back out of it. */
  function ExportFileName(responses: map<Key, Value>, timestamp: string): (fileName: string)
    ensures ExportedName(fileName, timestamp) == Some(EvaluatorName(responses))
  {
    var head, name, tail := "survey_result_", EvaluatorName(responses), "_" + timestamp + ".csv";
    var s := head + name + tail;
    assert s[..|head|] == head;
    assert s[|s| - |tail|..] == tail;
    assert s[|head|..|s| - |tail|] == name;
    s
  }

  // ---------------------------------------------------------------- the session

  /** The PART 1 answer for case number c has been stored. */
  predicate Answered(responses: map<Key, Value>, c: nat) {
    Case(c, FilePart) in responses && Case(c, ChoicePart) in responses
  }

  /** Every PART 1 answer up to case number n has been stored. */
  predicate AnsweredUpTo(responses: map<Key, Value>, n: nat) {
    forall c :: 1 <= c <= n ==> Answered(responses, c)
  }

  /** The file stored for each case is the catalogue entry at that position. */
  predicate FilesRecorded(files: seq<string>, responses: map<Key, Value>) {
    forall c :: 1 <= c <= |files| && Case(c, FilePart) in responses ==> responses[Case(c, FilePart)] == Text(files[c - 1])
  }

  /** Answers only accumulate: a map with more keys has answered every case the smaller one had. */
  lemma AnsweredGrows(responses: map<Key, Value>, larger: map<Key, Value>, n: nat)
    requires responses.Keys <= larger.Keys
    requires AnsweredUpTo(responses, n)
    ensures AnsweredUpTo(larger, n)
  {
    forall c | 1 <= c <= n ensures Answered(larger, c) {
      assert Answered(responses, c);
    }
  }

  /** The answers the "next" button leaves for the case at position index: the open file and the
      choice made are stored under that position's two keys (a revisit overwrites them), no other
      key is added, and every earlier answer, the identity fields and the catalogue files are kept. */
  function RecordCase(files: seq<string>, index: nat, responses: map<Key, Value>, choice: Choice): (r: map<Key, Value>)
    requires index < |files|
    ensures Case(index + 1, FilePart) in r && r[Case(index + 1, FilePart)] == Text(files[index])
    ensures Case(index + 1, ChoicePart) in r && r[Case(index + 1, ChoicePart)] == Text(ChoiceLabel(choice))
    ensures r.Keys == responses.Keys + {Case(index + 1, FilePart), Case(index + 1, ChoicePart)}
    ensures Answered(r, index + 1)
    ensures AnsweredUpTo(responses, index) ==> AnsweredUpTo(r, index + 1)
    ensures forall n :: AnsweredUpTo(responses, n) ==> AnsweredUpTo(r, n)
    ensures forall k :: k in responses && k != Case(index + 1, FilePart) && k != Case(index + 1, ChoicePart) ==>
              k in r && r[k] == responses[k]
    ensures Answered(responses, index + 1) ==> r.Keys == responses.Keys
    ensures FilesRecorded(files, responses) ==> FilesRecorded(files, r)
  {
    var r := responses[Case(index + 1, FilePart) := Text(files[index])][Case(index + 1, ChoicePart) := Text(ChoiceLabel(choice))];
    assert forall n :: AnsweredUpTo(responses, n) ==> AnsweredUpTo(r, n) by {
      forall n | AnsweredUpTo(responses, n) ensures AnsweredUpTo(r, n) {
        AnsweredGrows(responses, r, n);
      }
    }
    assert AnsweredUpTo(responses, index) ==> AnsweredUpTo(r, index + 1) by {
      if AnsweredUpTo(responses, index) {
        forall c | 1 <= c <= index + 1 ensures Answered(r, c) {
          if c <= index {
            assert Answered(responses, c);
          }
        }
      }
    }
    r
  }

  class Session {
    var page: Page
    var currentIndex: nat
    var responses: map<Key, Value>
    /** The case catalogue, fixed for the whole session. */
    const fileList: seq<string>

    /** The session invariant. Once PART 1 is over, the file column of every case holds the
        catalogue entry at its position, and on the last page every fixed field is stored. */
    ghost predicate Valid()
      reads this
      ensures Valid() && Stage(page) >= Stage(Part2) ==>
        forall c :: 1 <= c <= |fileList| ==> Answered(responses, c) && responses[Case(c, FilePart)] == Text(fileList[c - 1])
      ensures Valid() && page == Finish ==> forall f :: Fixed(f) in responses
    {
      var kept :=
        && 0 < |fileList|
        && currentIndex < |fileList|
        && (Stage(page) < Stage(Part1) ==> currentIndex == 0)
        && (page == Intro ==> responses == map[])
        && (page != Intro ==> IntroRecorded(responses))
        && (forall k :: k in responses ==> Known(k, |fileList|))
        && FilesRecorded(fileList, responses)
        && (page == Part1 ==> AnsweredUpTo(responses, currentIndex))
        && (Stage(page) >= Stage(Part2) ==> AnsweredUpTo(responses, |fileList|))
        && (page == Finish ==> Part2Recorded(responses));
      assert kept && Stage(page) >= Stage(Part2) ==>
        forall c :: 1 <= c <= |fileList| ==> Answered(responses, c) && responses[Case(c, FilePart)] == Text(fileList[c - 1])
      by {
        if kept && Stage(page) >= Stage(Part2) {
          forall c | 1 <= c <= |fileList|
            ensures Answered(responses, c) && responses[Case(c, FilePart)] == Text(fileList[c - 1])
          {
            assert Answered(responses, c);
          }
        }
      }
      kept
    }

    /** A new session over a non-empty catalogue: the intro page, case 0, no answers. */
    constructor (catalogue: seq<string>)
      requires |catalogue| > 0
      ensures Valid()
      ensures fileList == catalogue && page == Intro && currentIndex == 0 && responses == map[]
    {
      fileList := catalogue;
      page := Intro;
      currentIndex := 0;
      responses := map[];
    }

    /** The intro form's submit button. */
    method SubmitIntro(name: string, affiliation: string, experience: nat, specialty: string)
      requires Valid()
      modifies this
      ensures Valid()
      ensures Stage(old(page)) <= Stage(page) <= Stage(old(page)) + 1
      ensures currentIndex == old(currentIndex)
      ensures if old(page) == Intro && name != "" && affiliation != "" then
                && page == Instruction
                && responses == old(responses)[Fixed(Name) := Text(name)][Fixed(Affiliation) := Text(affiliation)]
                                 [Fixed(Experience) := Int(experience)][Fixed(Specialty) := Text(specialty)]
              else
                page == old(page) && responses == old(responses)
    {
      if page == Intro && name != "" && affiliation != "" {
        responses := responses[Fixed(Name) := Text(name)];
        responses := responses[Fixed(Affiliation) := Text(affiliation)];
        responses := responses[Fixed(Experience) := Int(experience)];
        responses := responses[Fixed(Specialty) := Text(specialty)];
        page := Instruction;
      }
    }

    /** The instruction page's "ready" button. */
    method Ready()
      requires Valid()
      modifies this
      ensures Valid()
      ensures Stage(old(page)) <= Stage(page) <= Stage(old(page)) + 1
      ensures page == if old(page) == Instruction then Part1 else old(page)
      ensures currentIndex == old(currentIndex) && responses == old(responses)
    {
      if page == Instruction {
        page := Part1;
      }
    }

    /** The "previous" button, shown on a PART 1 case other than the first. */
    method Previous()
      requires Valid()
      modifies this
      ensures Valid()
      ensures Stage(old(page)) <= Stage(page) <= Stage(old(page)) + 1
      ensures page == old(page) && responses == old(responses)
      ensures currentIndex == if old(page) == Part1 && old(currentIndex) > 0 then old(currentIndex) - 1 else old(currentIndex)
    {
      if page == Part1 && currentIndex > 0 {
        currentIndex := currentIndex - 1;
      }
    }

    /** The "next" button of PART 1: stores the case's file and choice under its position, then
        opens the following case, or PART 2 after the last one. */
    method Next(choice: Choice)
      requires Valid()
      modifies this
      ensures Valid()
      ensures Stage(old(page)) <= Stage(page) <= Stage(old(page)) + 1
      ensures old(page) != Part1 ==>
        page == old(page) && currentIndex == old(currentIndex) && responses == old(responses)
      ensures old(page) == Part1 ==>
        && responses == RecordCase(fileList, old(currentIndex), old(responses), choice)
        && if old(currentIndex) + 1 == |fileList| then page == Part2 && currentIndex == old(currentIndex)
           else page == Part1 && currentIndex == old(currentIndex) + 1
    {
      if page == Part1 {
        responses := RecordCase(fileList, currentIndex, responses, choice);
        if currentIndex + 1 < |fileList| {
          currentIndex := currentIndex + 1;
        } else {
          page := Part2;
        }
      }
    }

    /** The PART 2 form's submit button: stores the 16 answers and opens the last page. */
    method SubmitPart2(answers: Part2Answers)
      requires Valid()
      modifies this
      ensures Valid()
      ensures Stage(old(page)) <= Stage(page) <= Stage(old(page)) + 1
      ensures currentIndex == old(currentIndex)
      ensures if old(page) == Part2 then page == Finish && responses == old(responses) + Part2Entries(answers)
              else page == old(page) && responses == old(responses)
    {
      if page == Part2 {
        AnsweredGrows(responses, responses + Part2Entries(answers), |fileList|);
        responses := responses + Part2Entries(answers);
        page := Finish;
      }
    }

    /** The three images of the open PART 1 case: Original, Method A and Method B. */
    method ShowCase(original: Folder, methodA: Folder, methodB: Folder) returns (a0: Image, a1: Image, a2: Image)
      requires Valid() && page == Part1
      ensures a0 == Resolve(fileList[currentIndex], original)
      ensures a1 == Resolve(fileList[currentIndex], methodA)
      ensures a2 == Resolve(fileList[currentIndex], methodB)
    {
      var fileName := fileList[currentIndex];
      a0 := LoadImage(fileName, original);
      a1 := LoadImage(fileName, methodA);
      a2 := LoadImage(fileName, methodB);
    }

    /** save_data: a one-row table with a column per stored answer, written to a file whose
        name carries the evaluator's name once the intro form has been accepted. */
    method SaveData(timestamp: string) returns (fileName: string, header: set<string>)
      requires Valid()
      ensures ExportedName(fileName, timestamp) == Some(EvaluatorName(responses))
      ensures page != Intro ==> EvaluatorName(responses) == responses[Fixed(Name)].text != ""
      ensures forall k :: Spelling(k) in header <==> k in responses
      ensures forall h :: h in header ==> exists k :: k in responses && Spelling(k) == h
      ensures |header| == |responses|
    {
      fileName := ExportFileName(responses, timestamp);
      header := set k | k in responses :: Spelling(k);
      assert header == Columns(responses.Keys);
      ColumnCount(responses.Keys);
      forall k | Spelling(k) in header ensures k in responses {
        var k' :| k' in responses && Spelling(k') == Spelling(k);
        SpellingInjective(k, k');
      }
    }
  }

  /** Session start: the catalogue is built once, and an empty one stops the survey. */
  method Open(original: Folder) returns (session: Session?)
    ensures session == null <==> GetImageFiles(original) == []
    ensures session != null ==>
      && fresh(session) && session.Valid()
      && session.fileList == GetImageFiles(original)
      && session.page == Intro && session.currentIndex == 0 && session.responses == map[]
  {
    var catalogue := GetImageFiles(original);
    if catalogue == [] {
      return null;
    }
    session := new Session(catalogue);
  }

  /** The column names of the first case. */
  lemma FirstCaseSpelling()
    ensures Spelling(Case(1, FilePart)) == "Case_1_File"
    ensures Spelling(Case(1, ChoicePart)) == "Case_1_Choice"
  {
  }

  /** The record a one-case survey ends with: every fixed field and the case's file and choice,
      with no answer overwriting another. */
  lemma SingleCaseRecord(intro: map<Key, Value>, file: string, choice: Choice, answers: Part2Answers)
    requires intro.Keys == IntroKeys()
    ensures var r := RecordCase([file], 0, intro, choice) + Part2Entries(answers);
      && (forall k :: k in r <==> k.Fixed? || k == Case(1, FilePart) || k == Case(1, ChoicePart))
      && r[Case(1, FilePart)] == Text(file) && r[Case(1, ChoicePart)] == Text(ChoiceLabel(choice))
      && (forall k :: k in intro ==> r[k] == intro[k])
      && (forall k :: k in Part2Entries(answers) ==> r[k] == Part2Entries(answers)[k])
  {
    var r := RecordCase([file], 0, intro, choice) + Part2Entries(answers);
    forall k ensures k in r <==> k.Fixed? || k == Case(1, FilePart) || k == Case(1, ChoicePart) {
      if k.Fixed? {
        FixedKeysPartition(k.field);
      }
    }
    forall k | k in intro ensures r[k] == intro[k] {
      FixedKeysPartition(k.field);
    }
  }

  /** One evaluator and a one-case catalogue, from the intro page to the results file; input
      after the last page changes nothing. */
  method CompleteSingleCase(file: string, name: string, affiliation: string, experience: nat, specialty: string,
                            choice: Choice, answers: Part2Answers, timestamp: string)
    returns (record: map<Key, Value>, fileName: string, header: set<string>)
    requires name != "" && affiliation != ""
    ensures forall k :: k in record <==> k.Fixed? || k == Case(1, FilePart) || k == Case(1, ChoicePart)
    ensures record[Case(1, FilePart)] == Text(file) && record[Case(1, ChoicePart)] == Text(ChoiceLabel(choice))
    ensures record[Fixed(Name)] == Text(name) && record[Fixed(Affiliation)] == Text(affiliation)
    ensures record[Fixed(Experience)] == Int(experience) && record[Fixed(Specialty)] == Text(specialty)
    ensures forall k :: k in Part2Entries(answers) ==> record[k] == Part2Entries(answers)[k]
    ensures ExportedName(fileName, timestamp) == Some(name)
    ensures "Case_1_File" in header && "Case_1_Choice" in header
    ensures forall k :: Spelling(k) in header <==> k in record
  {
    var session := new Session([file]);
    session.SubmitIntro(name, affiliation, experience, specialty);
    ghost var intro := session.responses;
    assert intro.Keys == IntroKeys() && intro[Fixed(Name)] == Text(name);
    assert intro[Fixed(Affiliation)] == Text(affiliation) && intro[Fixed(Experience)] == Int(experience);
    assert intro[Fixed(Specialty)] == Text(specialty);
    session.Ready();
    session.Next(choice);
    session.SubmitPart2(answers);
    ghost var finished := session.responses;
    SingleCaseRecord(intro, file, choice, answers);
    session.Previous();
    session.Next(choice);
    session.Ready();
    session.SubmitIntro(name, affiliation, experience, specialty);
    session.SubmitPart2(answers);
    assert session.page == Finish && session.responses == finished;
    record := session.responses;
    fileName, header := session.SaveData(timestamp);
    FirstCaseSpelling();
  }
}
