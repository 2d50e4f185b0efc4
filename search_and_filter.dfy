/**
 * The filter bar: its select options, one list per filter, each headed by an "All …" entry.
 */
module SearchAndFilter {
  import opened Wrappers
  import opened GenderLabels
  import opened DiscoverPage

  datatype SelectOption = SelectOption(value: string, caption: string)

  /** A select's options: the "All …" entry with value "", then one option per value. */
  function Options(allLabel: string, values: seq<string>, labelOf: string -> string): (opts: seq<SelectOption>)
    ensures |opts| == |values| + 1
    ensures opts[0] == SelectOption("", allLabel)
    ensures forall i :: 0 <= i < |values| ==> opts[i + 1] == SelectOption(values[i], labelOf(values[i]))
  {
    [SelectOption("", allLabel)] + seq(|values|, i requires 0 <= i < |values| => SelectOption(values[i], labelOf(values[i])))
  }

  function TopicOptions(topics: seq<string>): seq<SelectOption> {
    Options("All Topics", topics, t => t)
  }

  function PlatformOptions(platforms: seq<string>): seq<SelectOption> {
    Options("All Platforms", platforms, p => p)
  }

  function GenderOptions(genders: seq<string>): seq<SelectOption> {
    Options("All Genders", genders, GenderLabel)
  }

  /**
   * Picking the "All …" option of a select removes that filter from the page's criteria,
   * while picking a listed value filters by it.
   */
  lemma AllOptionClears(st: FilterState, topics: seq<string>, platforms: seq<string>, genders: seq<string>)
    ensures StateCriteria(st.(topic := TopicOptions(topics)[0].value)).topic.None?
    ensures StateCriteria(st.(platform := PlatformOptions(platforms)[0].value)).platform.None?
    ensures StateCriteria(st.(gender := GenderOptions(genders)[0].value)).gender.None?
    ensures forall i :: 0 <= i < |topics| && topics[i] != "" ==>
      StateCriteria(st.(topic := TopicOptions(topics)[i + 1].value)).topic == Some(topics[i])
    ensures forall i :: 0 <= i < |platforms| && platforms[i] != "" ==>
      StateCriteria(st.(platform := PlatformOptions(platforms)[i + 1].value)).platform == Some(platforms[i])
    ensures forall i :: 0 <= i < |genders| && genders[i] != "" ==>
      StateCriteria(st.(gender := GenderOptions(genders)[i + 1].value)).gender == Some(genders[i])
  {
  }
}
