/** The conversion between tags `{id, label}` and the `{label, value}`
    options of the multi-select widget, used by both the note list and the
    note editor: a tag's `id` travels as the option's `value`. */
module SelectOptions {
  import opened App

  datatype TagOption = TagOption(labelText: string, value: string)

  /** `option => ({ label: option.label, id: option.value })` */
  function FromOption(option: TagOption): Tag {
    Tag(option.value, option.labelText)
  }

  /** `tag => ({ label: tag.label, value: tag.id })` */
  function ToOption(tag: Tag): (option: TagOption)
    ensures FromOption(option) == tag
  {
    TagOption(tag.labelText, tag.id)
  }

  /** The options shown for a list of tags: same length and order, each
      option's `value` is its tag's `id` and its label the tag's label. */
  function ToOptions(tags: seq<Tag>): (options: seq<TagOption>)
    ensures |options| == |tags|
    ensures forall i :: 0 <= i < |tags| ==>
              options[i].value == tags[i].id && options[i].labelText == tags[i].labelText
  {
    if tags == [] then [] else [ToOption(tags[0])] + ToOptions(tags[1..])
  }

  /** The tags for a list of chosen options: same length and order, each
      tag's `id` is its option's `value` and its label the option's label. */
  function FromOptions(options: seq<TagOption>): (tags: seq<Tag>)
    ensures |tags| == |options|
    ensures forall i :: 0 <= i < |options| ==>
              tags[i].id == options[i].value && tags[i].labelText == options[i].labelText
  {
    if options == [] then [] else [FromOption(options[0])] + FromOptions(options[1..])
  }

  /** Showing tags as options and reading the options back gives the tags. */
  lemma {:induction false} TagsRoundTrip(tags: seq<Tag>)
    ensures FromOptions(ToOptions(tags)) == tags
  {
    if tags != [] {
      TagsRoundTrip(tags[1..]);
      assert ToOptions(tags)[1..] == ToOptions(tags[1..]);
    }
  }

  /** Reading options as tags and showing them again gives the options. */
  lemma {:induction false} OptionsRoundTrip(options: seq<TagOption>)
    ensures ToOptions(FromOptions(options)) == options
  {
    if options != [] {
      OptionsRoundTrip(options[1..]);
      assert FromOptions(options)[1..] == FromOptions(options[1..]);
    }
  }
}
