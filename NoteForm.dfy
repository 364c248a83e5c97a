/** The note editor: its tag selection, the two text inputs it reads on
    submit, and the callbacks it fires. The callbacks `onAddTag` and
    `onSubmit` and the navigation are recorded, in call order, in fields of
    the form, so that each method can state what it passed to them. */
module NoteForm {
  import opened Js
  import opened App
  import opened SelectOptions

  class NoteForm {
    /** The tags offered in the select menu (a prop). */
    const availableTags: seq<Tag>
    /** The `selectedTags` state. */
    var selectedTags: seq<Tag>
    /** What the title and body inputs currently hold (read through their refs). */
    var titleValue: string
    var markdownValue: string
    /** Every tag passed to `onAddTag`, every payload passed to `onSubmit`,
        every path passed to navigation, oldest first. */
    var addedTags: seq<Tag>
    var submitted: seq<NoteData>
    var navigations: seq<string>

    /** Mounting the form: omitted props take their defaults (empty title and
        body, no tags); the selection starts from the `tags` prop and the
        inputs from the title and body props. */
    constructor (availableTags: seq<Tag>, title: Option<string>, markdown: Option<string>,
                 tags: Option<seq<Tag>>)
      ensures this.availableTags == availableTags
      ensures tags.Some? ==> selectedTags == tags.value
      ensures tags.None? ==> selectedTags == []
      ensures title.Some? ==> titleValue == title.value
      ensures title.None? ==> titleValue == ""
      ensures markdown.Some? ==> markdownValue == markdown.value
      ensures markdown.None? ==> markdownValue == ""
      ensures addedTags == [] && submitted == [] && navigations == []
    {
      this.availableTags := availableTags;
      selectedTags := if tags.Some? then tags.value else [];
      titleValue := if title.Some? then title.value else "";
      markdownValue := if markdown.Some? then markdown.value else "";
      addedTags, submitted, navigations := [], [], [];
    }

    /** The options of the select menu: one per available tag, in order,
        with the tag's id as the value. */
    function Options(): (options: seq<TagOption>)
      ensures |options| == |availableTags|
      ensures forall i :: 0 <= i < |availableTags| ==>
                options[i].value == availableTags[i].id && options[i].labelText == availableTags[i].labelText
    {
      ToOptions(availableTags)
    }

    /** The value shown by the select: the selection as options, which read
        back give the selection itself. */
    function Value(): (options: seq<TagOption>)
      reads this
      ensures FromOptions(options) == selectedTags
    {
      TagsRoundTrip(selectedTags);
      ToOptions(selectedTags)
    }

    /** The user edits the title input. */
    method EditTitle(text: string)
      modifies this`titleValue
      ensures titleValue == text
    {
      titleValue := text;
    }

    /** The user edits the body input. */
    method EditMarkdown(text: string)
      modifies this`markdownValue
      ensures markdownValue == text
    {
      markdownValue := text;
    }

    /** `onCreateOption`: a new tag with the typed label and a fresh id (the
        id generator's output is the parameter `freshId`) is reported through
        `onAddTag` and appended to the selection; nothing else changes. */
    method OnCreateOption(labelText: string, freshId: string) returns (newTag: Tag)
      modifies this`selectedTags, this`addedTags
      ensures newTag.id == freshId && newTag.labelText == labelText
      ensures selectedTags == old(selectedTags) + [newTag]
      ensures addedTags == old(addedTags) + [newTag]
    {
      newTag := Tag(freshId, labelText);
      addedTags := addedTags + [newTag];
      selectedTags := selectedTags + [newTag];
    }

    /** `onChange`: the selection becomes the chosen options read as tags,
        in the same order, each option's value as the tag's id. */
    method OnChange(options: seq<TagOption>)
      modifies this`selectedTags
      ensures |selectedTags| == |options|
      ensures forall i :: 0 <= i < |options| ==>
                selectedTags[i].id == options[i].value && selectedTags[i].labelText == options[i].labelText
    {
      selectedTags := FromOptions(options);
    }

    /** `handleSubmit`: the current inputs and selection are passed to
        `onSubmit`, then the form navigates to "..". */
    method HandleSubmit() returns (data: NoteData)
      modifies this`submitted, this`navigations
      ensures data.title == titleValue && data.markdown == markdownValue && data.tags == selectedTags
      ensures submitted == old(submitted) + [data]
      ensures navigations == old(navigations) + [".."]
    {
      data := NoteData(titleValue, markdownValue, selectedTags);
      submitted := submitted + [data];
      navigations := navigations + [".."];
    }

    /** Pressing Save: both inputs are `required`, so the browser blocks the
        submit while either is empty; otherwise `handleSubmit` runs. */
    method Submit() returns (data: Option<NoteData>)
      modifies this`submitted, this`navigations
      ensures (titleValue == "" || markdownValue == "") <==> data.None?
      ensures data.None? ==> submitted == old(submitted) && navigations == old(navigations)
      ensures data.Some? ==> data.value == NoteData(titleValue, markdownValue, selectedTags)
      ensures data.Some? ==> submitted == old(submitted) + [data.value]
                             && navigations == old(navigations) + [".."]
    {
      if titleValue == "" || markdownValue == "" {
        data := None;
      } else {
        var payload := HandleSubmit();
        data := Some(payload);
      }
    }

    /** Cancel: navigates to ".." without calling `onSubmit`. */
    method Cancel()
      modifies this`navigations
      ensures navigations == old(navigations) + [".."]
    {
      navigations := navigations + [".."];
    }
  }

  /** Choosing in the select exactly the options it currently shows leaves
      the selection unchanged. */
  method ReselectShownValue(form: NoteForm)
    modifies form`selectedTags
    ensures form.selectedTags == old(form.selectedTags)
  {
    form.OnChange(form.Value());
  }
}
