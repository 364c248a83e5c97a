/** The note list's filter: which notes are shown for a title query and a
    selection of tags. `KeepAsWritten` is the predicate the list applies;
    `KeepIntended` is the same predicate with the tag check returning its
    result, as the comment beside it describes. */
module NoteList {
  import opened Js
  import opened App

  /** The part of a note the list works with. */
  datatype SimplifiedNote = SimplifiedNote(tags: seq<Tag>, title: string, id: string)

  /** `note.tags.some(noteTag => noteTag.id === tag.id)` */
  function NoteHasTag(note: SimplifiedNote, tag: Tag): (r: bool)
    ensures r <==> exists i :: 0 <= i < |note.tags| && note.tags[i].id == tag.id
  {
    ArraySome(note.tags, (noteTag: Tag) => noteTag.id == tag.id)
  }

  /** The `every` callback as written: its block body evaluates the `some`
      lookup and discards it, so the callback returns `undefined`. */
  function EveryCallbackAsWritten(note: SimplifiedNote, tag: Tag): (r: JsValue)
    ensures !Truthy(r)
  {
    var _ := NoteHasTag(note, tag);
    Undefined
  }

  /** The `every` callback with the lookup returned. */
  function EveryCallbackIntended(note: SimplifiedNote, tag: Tag): (r: JsValue)
    ensures Truthy(r) <==> exists i :: 0 <= i < |note.tags| && note.tags[i].id == tag.id
  {
    Boolean(NoteHasTag(note, tag))
  }

  /** The title clause: the lowercased title includes the lowercased query. */
  function TitleMatches(note: SimplifiedNote, query: string): (r: bool)
    ensures r <==> exists i :: OccursAt(ToLowerCase(note.title), ToLowerCase(query), i)
  {
    LowerIncludes(note.title, query);
    StringIncludes(ToLowerCase(note.title), ToLowerCase(query))
  }

  /** `StringIncludes`'s postcondition, instantiated at the lowercased title
      and query. The verifier does not instantiate it there by itself inside
      `TitleMatches` and `NoTagsTitleDecides` (their ensures mention
      `ToLowerCase` under a quantifier), so both call this lemma. */
  lemma LowerIncludes(title: string, query: string)
    ensures StringIncludes(ToLowerCase(title), ToLowerCase(query)) <==>
            exists i :: OccursAt(ToLowerCase(title), ToLowerCase(query), i)
  {
  }

  /** The filter's condition for one note, for a given `every` callback:
      an empty query keeps the note outright; otherwise the title must match
      and the selection must be empty or pass `every`. */
  predicate KeepWith(note: SimplifiedNote, query: string, selectedTags: seq<Tag>,
                     callback: (SimplifiedNote, Tag) -> JsValue)
    ensures KeepWith(note, query, selectedTags, callback) <==>
            query == "" ||
            (TitleMatches(note, query) &&
             forall k :: 0 <= k < |selectedTags| ==> Truthy(callback(note, selectedTags[k])))
  {
    query == "" ||
    (TitleMatches(note, query) &&
     (|selectedTags| == 0 || ArrayEvery(selectedTags, (tag: Tag) => callback(note, tag))))
  }

  /** The filter's condition as written: the tag clause passes only for an
      empty selection. */
  predicate KeepAsWritten(note: SimplifiedNote, query: string, selectedTags: seq<Tag>)
    ensures KeepAsWritten(note, query, selectedTags) <==>
            query == "" || (TitleMatches(note, query) && |selectedTags| == 0)
  {
    KeepWith(note, query, selectedTags, EveryCallbackAsWritten)
  }

  /** The filter's condition with the callback corrected: the tag clause
      passes when the note carries every selected tag (by id). */
  predicate KeepIntended(note: SimplifiedNote, query: string, selectedTags: seq<Tag>)
    ensures KeepIntended(note, query, selectedTags) <==>
            query == "" ||
            (TitleMatches(note, query) &&
             forall k :: 0 <= k < |selectedTags| ==> NoteHasTag(note, selectedTags[k]))
  {
    KeepWith(note, query, selectedTags, EveryCallbackIntended)
  }

  /** `filteredNotes`: the notes the list shows, in their original order. */
  function FilteredNotes(notes: seq<SimplifiedNote>, query: string, selectedTags: seq<Tag>)
    : (shown: seq<SimplifiedNote>)
    ensures IsSubsequence(shown, notes) && |shown| <= |notes|
    ensures forall i :: 0 <= i < |shown| ==> shown[i] in notes
    ensures forall i :: 0 <= i < |shown| ==> KeepAsWritten(shown[i], query, selectedTags)
    ensures forall i :: 0 <= i < |notes| && KeepAsWritten(notes[i], query, selectedTags) ==> notes[i] in shown
    ensures forall n :: multiset(shown)[n] ==
                        if KeepAsWritten(n, query, selectedTags) then multiset(notes)[n] else 0
  {
    var shown := ArrayFilter(notes, (note: SimplifiedNote) => KeepAsWritten(note, query, selectedTags));
    SubsequenceShorter(shown, notes);
    shown
  }

  /** The same list filtered with the corrected callback. */
  function FilteredNotesIntended(notes: seq<SimplifiedNote>, query: string, selectedTags: seq<Tag>)
    : (shown: seq<SimplifiedNote>)
    ensures IsSubsequence(shown, notes) && |shown| <= |notes|
    ensures forall i :: 0 <= i < |shown| ==> KeepIntended(shown[i], query, selectedTags)
    ensures forall i :: 0 <= i < |notes| && KeepIntended(notes[i], query, selectedTags) ==> notes[i] in shown
    ensures forall n :: multiset(shown)[n] ==
                        if KeepIntended(n, query, selectedTags) then multiset(notes)[n] else 0
  {
    var shown := ArrayFilter(notes, (note: SimplifiedNote) => KeepIntended(note, query, selectedTags));
    SubsequenceShorter(shown, notes);
    shown
  }

  /** An empty query shows every note, whatever tags are selected, both as
      written and with the corrected callback. */
  lemma EmptyQueryShowsAll(notes: seq<SimplifiedNote>, selectedTags: seq<Tag>)
    ensures FilteredNotes(notes, "", selectedTags) == notes
    ensures FilteredNotesIntended(notes, "", selectedTags) == notes
  {
    FilterKeepsAll(notes, (note: SimplifiedNote) => KeepAsWritten(note, "", selectedTags));
    FilterKeepsAll(notes, (note: SimplifiedNote) => KeepIntended(note, "", selectedTags));
  }

  /** With no tag selected, a note is kept exactly when its lowercased title
      contains the lowercased query somewhere. */
  lemma NoTagsTitleDecides(note: SimplifiedNote, query: string)
    requires query != ""
    ensures KeepAsWritten(note, query, []) <==>
            exists i :: OccursAt(ToLowerCase(note.title), ToLowerCase(query), i)
    ensures KeepIntended(note, query, []) == KeepAsWritten(note, query, [])
  {
    LowerIncludes(note.title, query);
  }

  /** As written, a non-empty query together with a non-empty selection
      rejects every note: the first selected tag's callback is `undefined`. */
  lemma {:induction false} SelectionRejectsAsWritten(note: SimplifiedNote, query: string, selectedTags: seq<Tag>)
    requires query != "" && |selectedTags| > 0
    ensures !KeepAsWritten(note, query, selectedTags)
  {
    assert !Truthy(EveryCallbackAsWritten(note, selectedTags[0]));
  }

  /** So the list shows nothing at all in that case. */
  lemma SelectionShowsNothing(notes: seq<SimplifiedNote>, query: string, selectedTags: seq<Tag>)
    requires query != "" && |selectedTags| > 0
    ensures FilteredNotes(notes, query, selectedTags) == []
  {
    var shown := FilteredNotes(notes, query, selectedTags);
    if shown != [] {
      SelectionRejectsAsWritten(shown[0], query, selectedTags);
    }
  }

  /** With the corrected callback and a non-empty query, a note is kept
      exactly when its title matches and it carries every selected tag
      (compared by id). */
  lemma IntendedTagSubset(note: SimplifiedNote, query: string, selectedTags: seq<Tag>)
    requires query != ""
    ensures KeepIntended(note, query, selectedTags) <==>
            TitleMatches(note, query) &&
            forall k :: 0 <= k < |selectedTags| ==>
              exists j :: 0 <= j < |note.tags| && note.tags[j].id == selectedTags[k].id
  {
    var callback := (tag: Tag) => EveryCallbackIntended(note, tag);
    assert ArrayEvery(selectedTags, callback) <==>
           forall k :: 0 <= k < |selectedTags| ==> NoteHasTag(note, selectedTags[k]);
  }

  /** Exactly where the two predicates disagree: a non-empty query, a
      non-empty selection, a matching title and every selected tag present.
      There the corrected predicate keeps the note and the written one drops it;
      they never disagree the other way. */
  lemma AsWrittenVersusIntended(note: SimplifiedNote, query: string, selectedTags: seq<Tag>)
    ensures KeepAsWritten(note, query, selectedTags) ==> KeepIntended(note, query, selectedTags)
    ensures KeepAsWritten(note, query, selectedTags) != KeepIntended(note, query, selectedTags) <==>
            query != "" && |selectedTags| > 0 && TitleMatches(note, query) &&
            forall k :: 0 <= k < |selectedTags| ==> NoteHasTag(note, selectedTags[k])
  {
    if query != "" {
      IntendedTagSubset(note, query, selectedTags);
      if |selectedTags| > 0 {
        SelectionRejectsAsWritten(note, query, selectedTags);
      }
    }
  }

  /** A concrete note that carries the one selected tag and matches the
      query, yet the list as written does not show it. */
  lemma TaggedNoteDropped()
    ensures var work := Tag("t1", "Work");
            var note := SimplifiedNote([work], "Work log", "n1");
            KeepIntended(note, "work", [work]) && !KeepAsWritten(note, "work", [work])
  {
    var work := Tag("t1", "Work");
    var note := SimplifiedNote([work], "Work log", "n1");
    assert ToLowerCase("Work log")[..4] == "work";
    assert OccursAt(ToLowerCase(note.title), ToLowerCase("work"), 0);
    assert NoteHasTag(note, work) by {
      assert note.tags[0].id == work.id;
    }
    IntendedTagSubset(note, "work", [work]);
    SelectionRejectsAsWritten(note, "work", [work]);
  }

  /** Changing only the letter case of the query does not change which notes
      are kept. */
  lemma QueryCaseInsensitive(note: SimplifiedNote, q1: string, q2: string, selectedTags: seq<Tag>)
    requires SameIgnoringCase(q1, q2)
    ensures KeepAsWritten(note, q1, selectedTags) == KeepAsWritten(note, q2, selectedTags)
    ensures KeepIntended(note, q1, selectedTags) == KeepIntended(note, q2, selectedTags)
  {
    SameIgnoringCaseLower(q1, q2);
  }

  /** Changing only the letter case of a note's title does not change whether
      it is kept. */
  lemma TitleCaseInsensitive(note: SimplifiedNote, title: string, query: string, selectedTags: seq<Tag>)
    requires SameIgnoringCase(note.title, title)
    ensures KeepAsWritten(note, query, selectedTags) == KeepAsWritten(note.(title := title), query, selectedTags)
    ensures KeepIntended(note, query, selectedTags) == KeepIntended(note.(title := title), query, selectedTags)
  {
    SameIgnoringCaseLower(note.title, title);
    var other := note.(title := title);
    if query != "" {
      IntendedTagSubset(note, query, selectedTags);
      IntendedTagSubset(other, query, selectedTags);
      if |selectedTags| > 0 {
        SelectionRejectsAsWritten(note, query, selectedTags);
        SelectionRejectsAsWritten(other, query, selectedTags);
      }
    }
  }

  /** Filtering the shown notes again with the same query and selection shows
      the same notes. */
  lemma FilterIdempotentAsWritten(notes: seq<SimplifiedNote>, query: string, selectedTags: seq<Tag>)
    ensures FilteredNotes(FilteredNotes(notes, query, selectedTags), query, selectedTags)
            == FilteredNotes(notes, query, selectedTags)
  {
    FilterIdempotent(notes, (note: SimplifiedNote) => KeepAsWritten(note, query, selectedTags));
  }

  /** A query of the wrong case still finds the title: of "Alpha" and
      "beta", the query "AL" shows just "Alpha". */
  lemma TitleQueryExample()
    ensures var alpha := SimplifiedNote([], "Alpha", "1");
            var beta := SimplifiedNote([], "beta", "2");
            FilteredNotes([alpha, beta], "AL", []) == [alpha]
  {
    var notes := [SimplifiedNote([], "Alpha", "1"), SimplifiedNote([], "beta", "2")];
    TitleQueryExampleNotes();
    FilterSingle(notes, (note: SimplifiedNote) => KeepAsWritten(note, "AL", []), 0);
  }

  lemma TitleQueryExampleNotes()
    ensures KeepAsWritten(SimplifiedNote([], "Alpha", "1"), "AL", [])
    ensures !KeepAsWritten(SimplifiedNote([], "beta", "2"), "AL", [])
  {
    assert ToLowerCase("AL") == "al";
    assert ToLowerCase("Alpha")[..2] == "al";
    assert OccursAt(ToLowerCase("Alpha"), ToLowerCase("AL"), 0);
    assert ToLowerCase("beta") == "beta";
    forall i | OccursAt("beta", "al", i) ensures false {
    }
  }

  /** With the corrected callback, when exactly the note at `k` passes, the
      list shows just that note. */
  lemma IntendedShowsOnly(notes: seq<SimplifiedNote>, query: string, selectedTags: seq<Tag>, k: nat)
    requires k < |notes| && KeepIntended(notes[k], query, selectedTags)
    requires forall i :: 0 <= i < |notes| && i != k ==> !KeepIntended(notes[i], query, selectedTags)
    ensures FilteredNotesIntended(notes, query, selectedTags) == [notes[k]]
  {
    FilterSingle(notes, (note: SimplifiedNote) => KeepIntended(note, query, selectedTags), k);
  }

  /** With the corrected callback, of notes tagged [x], [x, y] and [] whose
      titles all match the query, the selection [x, y] shows only the second,
      for any two tags with different ids. */
  lemma TagSubsetExample(x: Tag, y: Tag, n1: SimplifiedNote, n2: SimplifiedNote, n3: SimplifiedNote)
    requires x.id != y.id
    requires n1.tags == [x] && n2.tags == [x, y] && n3.tags == []
    requires n1.title == n2.title == n3.title == "note"
    ensures FilteredNotesIntended([n1, n2, n3], "note", [x, y]) == [n2]
  {
    assert TitleMatches(n2, "note") by {
      assert OccursAt(ToLowerCase("note"), ToLowerCase("note"), 0);
    }
    assert KeepIntended(n2, "note", [x, y]) by {
      assert n2.tags[0].id == x.id && n2.tags[1].id == y.id;
    }
    assert !KeepIntended(n1, "note", [x, y]) by {
      assert !NoteHasTag(n1, y);
      assert [x, y][1] == y;
    }
    assert !KeepIntended(n3, "note", [x, y]) by {
      assert !NoteHasTag(n3, x);
    }
    var notes := [n1, n2, n3];
    assert forall i :: 0 <= i < 3 && i != 1 ==> !KeepIntended(notes[i], "note", [x, y]);
    IntendedShowsOnly(notes, "note", [x, y], 1);
  }

  /** The filter read as two filters joined by AND: a title filter that an
      empty query passes, and a tag filter that applies whatever the query.
      The code does not do this: its `title === ""` short-circuit skips the
      tag clause when the query is empty. */
  predicate KeepBothFilters(note: SimplifiedNote, query: string, selectedTags: seq<Tag>)
    ensures KeepBothFilters(note, query, selectedTags) <==>
            (query == "" || TitleMatches(note, query)) &&
            forall k :: 0 <= k < |selectedTags| ==> NoteHasTag(note, selectedTags[k])
  {
    (query == "" || TitleMatches(note, query)) &&
    ArrayEvery(selectedTags, (tag: Tag) => EveryCallbackIntended(note, tag))
  }

  /** The AND reading agrees with the corrected predicate for a non-empty
      query. With an empty query the corrected predicate keeps every note,
      and the AND reading keeps exactly the notes that carry every selected tag. */
  lemma BothFiltersVersusIntended(note: SimplifiedNote, query: string, selectedTags: seq<Tag>)
    ensures query != "" ==>
            KeepBothFilters(note, query, selectedTags) == KeepIntended(note, query, selectedTags)
    ensures query == "" ==> KeepIntended(note, query, selectedTags)
    ensures query == "" ==>
            (KeepBothFilters(note, query, selectedTags) <==>
             forall k :: 0 <= k < |selectedTags| ==> NoteHasTag(note, selectedTags[k]))
  {
  }

  /** With no query, the code (corrected or not) ignores the selection: of
      notes tagged [x], [x, y] and [], the selection [x, y] shows all three. */
  lemma TagOnlyExampleShowsAll(x: Tag, y: Tag, n1: SimplifiedNote, n2: SimplifiedNote, n3: SimplifiedNote)
    requires n1.tags == [x] && n2.tags == [x, y] && n3.tags == []
    ensures FilteredNotesIntended([n1, n2, n3], "", [x, y]) == [n1, n2, n3]
    ensures FilteredNotes([n1, n2, n3], "", [x, y]) == [n1, n2, n3]
  {
    EmptyQueryShowsAll([n1, n2, n3], [x, y]);
  }

  /** Under the AND reading the same notes and selection, with no query,
      show only the note tagged [x, y]. */
  lemma TagOnlyExampleBothFilters(x: Tag, y: Tag, n1: SimplifiedNote, n2: SimplifiedNote, n3: SimplifiedNote)
    requires x.id != y.id
    requires n1.tags == [x] && n2.tags == [x, y] && n3.tags == []
    ensures ArrayFilter([n1, n2, n3], (note: SimplifiedNote) => KeepBothFilters(note, "", [x, y])) == [n2]
  {
    assert KeepBothFilters(n2, "", [x, y]) by {
      assert n2.tags[0].id == x.id && n2.tags[1].id == y.id;
    }
    assert !KeepBothFilters(n1, "", [x, y]) by {
      assert !NoteHasTag(n1, y);
      assert [x, y][1] == y;
    }
    assert !KeepBothFilters(n3, "", [x, y]) by {
      assert !NoteHasTag(n3, x);
    }
    var notes := [n1, n2, n3];
    assert forall i :: 0 <= i < 3 && i != 1 ==> !KeepBothFilters(notes[i], "", [x, y]);
    FilterSingle(notes, (note: SimplifiedNote) => KeepBothFilters(note, "", [x, y]), 1);
  }
}
