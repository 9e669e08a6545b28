/** The keys under which the survey stores its answers: four identity fields, sixteen PART 2
    fields, and two fields per PART 1 case named after the case's position. A key is kept as
    the structured value it stands for; Spelling gives the string the survey writes, which is
    also the key's column name in the results file. */
module SurveyKeys {
  import opened Filenames

  /** The two methods rated in PART 2. */
  datatype Variant = VariantA | VariantB

  /** The six aspects rated for each method. */
  datatype Aspect = Naturalness | Structure | Color | Identify | Accuracy | Time

  /** The fields written once per survey. */
  datatype Field =
    | Name | Affiliation | Experience | Specialty
    | Rating(variant: Variant, aspect: Aspect)
    | FinalPreference | PreferenceReason | AdoptionIntent | ExpertOpinion

  /** The two fields written for each PART 1 case. */
  datatype CasePart = FilePart | ChoicePart

  datatype Key = Fixed(field: Field) | Case(position: nat, part: CasePart)

  function VariantLetter(v: Variant): string {
    match v
    case VariantA => "A"
    case VariantB => "B"
  }

  function AspectName(a: Aspect): string {
    match a
    case Naturalness => "Naturalness"
    case Structure => "Structure"
    case Color => "Color"
    case Identify => "Identify"
    case Accuracy => "Accuracy"
    case Time => "Time"
  }

  function FieldName(f: Field): string {
    match f
    case Name => "Evaluator_Name"
    case Affiliation => "Affiliation"
    case Experience => "Experience"
    case Specialty => "Specialty"
    case Rating(v, a) => "Method_" + VariantLetter(v) + "_" + AspectName(a)
    case FinalPreference => "Final_Preference"
    case PreferenceReason => "Preference_Reason"
    case AdoptionIntent => "Adoption_Intent"
    case ExpertOpinion => "Expert_Opinion"
  }

  function PartName(p: CasePart): string {
    match p
    case FilePart => "File"
    case ChoicePart => "Choice"
  }

  /** The string the survey uses for a key; a case key carries the case's 1-based position.
      Only case keys start with 'C'. */
  function Spelling(k: Key): (s: string)
    ensures |s| > 0 && (s[0] == 'C' <==> k.Case?)
  {
    match k
    case Fixed(f) => FieldName(f)
    case Case(c, p) => "Case_" + Decimal(c) + "_" + PartName(p)
  }

  predicate IsIntroField(f: Field) {
    f.Name? || f.Affiliation? || f.Experience? || f.Specialty?
  }

  /** The identity fields the intro form stores. */
  function IntroKeys(): set<Key> {
    {Fixed(Name), Fixed(Affiliation), Fixed(Experience), Fixed(Specialty)}
  }

  /** The fields the PART 2 form stores: six ratings per method, then the closing questions. */
  function Part2Keys(): set<Key> {
    { Fixed(Rating(VariantA, Naturalness)), Fixed(Rating(VariantA, Structure)), Fixed(Rating(VariantA, Color)),
      Fixed(Rating(VariantA, Identify)), Fixed(Rating(VariantA, Accuracy)), Fixed(Rating(VariantA, Time)),
      Fixed(Rating(VariantB, Naturalness)), Fixed(Rating(VariantB, Structure)), Fixed(Rating(VariantB, Color)),
      Fixed(Rating(VariantB, Identify)), Fixed(Rating(VariantB, Accuracy)), Fixed(Rating(VariantB, Time)),
      Fixed(FinalPreference), Fixed(PreferenceReason), Fixed(AdoptionIntent), Fixed(ExpertOpinion) }
  }

  /** Every fixed field belongs to exactly one of the two forms. */
  lemma FixedKeysPartition(f: Field)
    ensures Fixed(f) in IntroKeys() <==> IsIntroField(f)
    ensures Fixed(f) in Part2Keys() <==> !IsIntroField(f)
  {
    if f.Rating? {
      var v, a := f.variant, f.aspect;
      assert v == VariantA || v == VariantB;
      assert a.Naturalness? || a.Structure? || a.Color? || a.Identify? || a.Accuracy? || a.Time?;
    }
  }

  /** The identity keys and the PART 2 keys are disjoint. */
  lemma FixedKeysDisjoint()
    ensures IntroKeys() !! Part2Keys()
  {
  }

  /** The keys the survey can write for a catalogue of n cases: the fixed ones and the
      case keys of positions 1 to n. */
  predicate Known(k: Key, n: nat) {
    k.Case? ==> 1 <= k.position <= n
  }

  /** Aspect names differ in their first letter. */
  lemma AspectNameInjective(a: Aspect, b: Aspect)
    ensures AspectName(a) == AspectName(b) ==> a == b
  {
  }

  lemma RatingNameInjective(v: Variant, a: Aspect, w: Variant, b: Aspect)
    ensures FieldName(Rating(v, a)) == FieldName(Rating(w, b)) ==> v == w && a == b
  {
    var s, t := FieldName(Rating(v, a)), FieldName(Rating(w, b));
    assert s[7] == VariantLetter(v)[0] && t[7] == VariantLetter(w)[0];
    assert s[9..] == AspectName(a) && t[9..] == AspectName(b);
    AspectNameInjective(a, b);
  }

  /** A rating's name starts with "Method_", which no other field name does. */
  lemma RatingNameApart(v: Variant, a: Aspect, f: Field)
    requires !f.Rating?
    ensures FieldName(Rating(v, a)) != FieldName(f)
  {
    var s := FieldName(Rating(v, a));
    assert s[0] == 'M';
  }

  /** Distinct fields are spelled differently. */
  lemma FieldNameInjective(f: Field, g: Field)
    ensures FieldName(f) == FieldName(g) ==> f == g
  {
    match (f, g)
    case (Rating(v, a), Rating(w, b)) => RatingNameInjective(v, a, w, b);
    case (Rating(v, a), _) => RatingNameApart(v, a, g);
    case (_, Rating(w, b)) => RatingNameApart(w, b, f);
    case _ =>
  }

  /** A case key gives back its position (the number extract_number finds in it) and its field. */
  lemma CaseKeyParts(c: nat, f: string)
    ensures ExtractNumber("Case_" + Decimal(c) + "_" + f) == c
    ensures ("Case_" + Decimal(c) + "_" + f)[|"Case_" + Decimal(c) + "_"|..] == f
  {
    var s := "Case_" + Decimal(c) + "_" + f;
    ExtractNumberOfDecimal("Case_", c, "_" + f);
    assert s == "Case_" + Decimal(c) + ("_" + f);
  }

  /** Two case keys are spelled alike only when they name the same position and the same field. */
  lemma CaseKeyInjective(c: nat, f: string, d: nat, g: string)
    ensures "Case_" + Decimal(c) + "_" + f == "Case_" + Decimal(d) + "_" + g ==> c == d && f == g
  {
    CaseKeyParts(c, f);
    CaseKeyParts(d, g);
  }

  lemma CaseSpellingInjective(c: nat, p: CasePart, d: nat, q: CasePart)
    ensures Spelling(Case(c, p)) == Spelling(Case(d, q)) ==> c == d && p == q
  {
    CaseKeyInjective(c, PartName(p), d, PartName(q));
    assert |PartName(FilePart)| != |PartName(ChoicePart)|;
  }

  /** Distinct keys are spelled differently: no two answers share a column of the results file. */
  lemma SpellingInjective(k: Key, l: Key)
    ensures Spelling(k) == Spelling(l) ==> k == l
  {
    match (k, l)
    case (Fixed(f), Fixed(g)) => FieldNameInjective(f, g);
    case (Case(c, p), Case(d, q)) => CaseSpellingInjective(c, p, d, q);
    case _ =>
  }

  /** The column names of a results file holding the answers stored under keys. */
  function Columns(keys: set<Key>): set<string> {
    set k | k in keys :: Spelling(k)
  }

  /** One column per stored answer. */
  lemma {:induction false} ColumnCount(keys: set<Key>)
    ensures |Columns(keys)| == |keys|
    decreases keys
  {
    if keys != {} {
      var k :| k in keys;
      var rest := keys - {k};
      ColumnCount(rest);
      forall x | x in rest ensures Spelling(x) != Spelling(k) {
        SpellingInjective(x, k);
      }
      assert Columns(keys) == Columns(rest) + {Spelling(k)};
    }
  }
}
