/**
 * The label the filter bar shows for a gender value of the catalog, and how it relates to
 * the spellings the seed script's gender conversion accepts.
 */
module GenderLabels {
  import opened Wrappers
  import opened Text
  import opened SeedUtils

  /**
   * `gender.charAt(0) + gender.slice(1).toLowerCase().replace('_', '-')`: the first
   * character as it is, then the rest lowercased with its first underscore made a hyphen.
   */
  function GenderLabel(gender: string): (text: string)
    ensures |text| == |gender|
    ensures gender != [] ==> text[0] == gender[0]
    ensures forall i :: 1 <= i < |gender| ==>
      text[i] == if i - 1 == FirstIndexOf(Lower(gender[1..]), '_') then '-' else LowerChar(gender[i])
  {
    if gender == [] then []
    else
      var rest := Lower(gender[1..]);
      assert forall i :: 1 <= i < |gender| ==> rest[i - 1] == LowerChar(gender[i]);
      [gender[0]] + ReplaceFirst(rest, '_', '-')
  }

  /** Only the first underscore after the first character becomes a hyphen. */
  lemma LaterUnderscoresKept(gender: string, i: int, j: int)
    requires 1 <= i < j < |gender| && gender[i] == '_' && gender[j] == '_'
    ensures GenderLabel(gender)[j] == '_'
  {
    var rest := Lower(gender[1..]);
    assert rest[i - 1] == '_';
    assert FirstIndexOf(rest, '_') <= i - 1;
  }

  /** The name of each value of the Gender enum, as the catalog spells it. */
  function EnumName(g: Gender): string {
    match g
    case MALE => "MALE"
    case FEMALE => "FEMALE"
    case NON_BINARY => "NON_BINARY"
  }

  /** The label is the first character followed by the rest lowercased, then with its first underscore replaced. */
  lemma LabelSteps(gender: string, lowered: string, replaced: string)
    requires gender != [] && Lower(gender[1..]) == lowered && ReplaceFirst(lowered, '_', '-') == replaced
    ensures GenderLabel(gender) == [gender[0]] + replaced
  {
  }

  // Each step below on a literal string is its own lemma: together in one context they
  // make the solver's work grow steeply.

  lemma MaleRest()
    ensures "MALE"[1..] == "ALE"
  {
  }

  lemma MaleLower()
    ensures Lower("ALE") == "ale"
  {
    LowerIs("ALE", "ale");
  }

  lemma MaleReplace()
    ensures ReplaceFirst("ale", '_', '-') == "ale"
  {
    assert FirstIndexOf("ale", '_') == 3;
  }

  lemma MaleJoin()
    ensures ['M'] + "ale" == "Male"
  {
  }

  lemma MaleLabel()
    ensures GenderLabel("MALE") == "Male"
  {
    MaleRest();
    MaleLower();
    MaleReplace();
    LabelSteps("MALE", "ale", "ale");
    MaleJoin();
  }

  lemma FemaleRest()
    ensures "FEMALE"[1..] == "EMALE"
  {
  }

  lemma FemaleLower()
    ensures Lower("EMALE") == "emale"
  {
    LowerIs("EMALE", "emale");
  }

  lemma FemaleReplace()
    ensures ReplaceFirst("emale", '_', '-') == "emale"
  {
    assert FirstIndexOf("emale", '_') == 5;
  }

  lemma FemaleJoin()
    ensures ['F'] + "emale" == "Female"
  {
  }

  lemma FemaleLabel()
    ensures GenderLabel("FEMALE") == "Female"
  {
    FemaleRest();
    FemaleLower();
    FemaleReplace();
    LabelSteps("FEMALE", "emale", "emale");
    FemaleJoin();
  }

  lemma NonBinaryRest()
    ensures "NON_BINARY"[1..] == "ON_BINARY"
  {
  }

  lemma NonBinaryLower()
    ensures Lower("ON_BINARY") == "on_binary"
  {
    LowerIs("ON_BINARY", "on_binary");
  }

  lemma NonBinaryReplace()
    ensures ReplaceFirst("on_binary", '_', '-') == "on-binary"
  {
    assert FirstIndexOf("on_binary", '_') == 2;
  }

  lemma NonBinaryJoin()
    ensures ['N'] + "on-binary" == "Non-binary"
  {
  }

  lemma NonBinaryLabel()
    ensures GenderLabel("NON_BINARY") == "Non-binary"
  {
    NonBinaryRest();
    NonBinaryLower();
    NonBinaryReplace();
    LabelSteps("NON_BINARY", "on_binary", "on-binary");
    NonBinaryJoin();
  }

  /** The label shown for each enum value. */
  function Caption(g: Gender): string {
    match g
    case MALE => "Male"
    case FEMALE => "Female"
    case NON_BINARY => "Non-binary"
  }

  lemma LabelIsCaption(g: Gender)
    ensures GenderLabel(EnumName(g)) == Caption(g)
  {
    match g {
      case MALE => MaleLabel();
      case FEMALE => FemaleLabel();
      case NON_BINARY => NonBinaryLabel();
    }
  }

  lemma LowerCaption(g: Gender)
    ensures Lower(Caption(g)) == GenderSpelling(g)
  {
    match g {
      case MALE => LowerIs("Male", "male");
      case FEMALE => LowerIs("Female", "female");
      case NON_BINARY => LowerIs("Non-binary", "non-binary");
    }
  }

  /**
   * The label of an enum value, lowercased, is exactly the spelling `convertGenderToEnum`
   * accepts for it, so the label itself converts back to that value.
   */
  lemma LabelRoundTrip(g: Gender)
    ensures Lower(GenderLabel(EnumName(g))) == GenderSpelling(g)
    ensures ConvertGenderToEnum(Some(GenderLabel(EnumName(g)))) == Some(g)
  {
    LabelIsCaption(g);
    LowerCaption(g);
    ConvertGenderExact(GenderLabel(EnumName(g)), g);
  }
}
