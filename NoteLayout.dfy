/** The layout of a note's pages: it looks the note up by the route's `id`
    parameter and either renders the nested routes with that note as their
    context or redirects to the home page. */
module NoteLayout {
  import opened Js
  import opened App

  /** What the layout renders. */
  datatype Layout =
    | Redirect(to: string, replace: bool)   // `<Navigate to="/" replace />`
    | Outlet(context: Note)                 // `<Outlet context={note} />`

  /** `n.id === id`; a route without an `id` parameter matches no note. */
  predicate HasRouteId(routeId: Option<string>, n: Note) {
    routeId == Some(n.id)
  }

  /** `notes.find(n => n.id === id)`: a found note is one of `notes`, carries
      the route id, and no earlier note does; nothing is found only when no
      note carries the route id. */
  function FindNote(notes: seq<Note>, routeId: Option<string>): (found: Option<Note>)
    ensures found.Some? ==> found.value in notes && routeId == Some(found.value.id)
    ensures found.Some? ==> exists i :: 0 <= i < |notes| && notes[i] == found.value &&
                                        forall j :: 0 <= j < i ==> routeId != Some(notes[j].id)
    ensures found.None? <==> forall i :: 0 <= i < |notes| ==> routeId != Some(notes[i].id)
  {
    ArrayFind(notes, (n: Note) => HasRouteId(routeId, n))
  }

  /** The first note carrying the route id is the one found; later notes
      with the same id are never chosen. */
  lemma FindNoteFirst(notes: seq<Note>, routeId: Option<string>, i: nat)
    requires i < |notes| && routeId == Some(notes[i].id)
    requires forall j :: 0 <= j < i ==> routeId != Some(notes[j].id)
    ensures FindNote(notes, routeId) == Some(notes[i])
  {
    var p := (n: Note) => HasRouteId(routeId, n);
    var found := ArrayFind(notes, p);
    assert IsFirstMatch(notes, p, i);
    var k :| IsFirstMatch(notes, p, k) && notes[k] == found.value;
    FirstMatchUnique(notes, p, i, k);
  }

  /** `NoteLayout`: render the found note's pages, or redirect home,
      replacing the history entry, when no note has the route id. */
  function NoteLayout(notes: seq<Note>, routeId: Option<string>): (layout: Layout)
    ensures layout.Redirect? <==> forall i :: 0 <= i < |notes| ==> routeId != Some(notes[i].id)
    ensures layout.Redirect? ==> layout == Redirect("/", true)
    ensures layout.Outlet? ==> layout.context in notes && routeId == Some(layout.context.id)
  {
    match FindNote(notes, routeId)
    case None => Redirect("/", true)
    case Some(note) => Outlet(note)
  }

  /** A note in the list with the route id means no redirect: the layout
      renders the first note with that id, which comes no later than `k`. */
  lemma {:induction false} PresentIdRenders(notes: seq<Note>, routeId: Option<string>, k: nat)
    requires k < |notes| && routeId == Some(notes[k].id)
    ensures exists i :: 0 <= i <= k && routeId == Some(notes[i].id) &&
                        (forall j :: 0 <= j < i ==> routeId != Some(notes[j].id)) &&
                        NoteLayout(notes, routeId) == Outlet(notes[i])
  {
    var i := FirstWithId(notes, routeId, k);
    FindNoteFirst(notes, routeId, i);
  }

  /** The index of the first note with the route id, given one at `k`. */
  lemma {:induction false} FirstWithId(notes: seq<Note>, routeId: Option<string>, k: nat) returns (i: nat)
    requires k < |notes| && routeId == Some(notes[k].id)
    ensures i <= k && routeId == Some(notes[i].id)
    ensures forall j :: 0 <= j < i ==> routeId != Some(notes[j].id)
  {
    if k == 0 || forall j :: 0 <= j < k ==> routeId != Some(notes[j].id) {
      i := k;
    } else {
      var j :| 0 <= j < k && routeId == Some(notes[j].id);
      i := FirstWithId(notes, routeId, j);
    }
  }

  /** Without an `id` route parameter the layout always redirects. */
  lemma MissingRouteIdRedirects(notes: seq<Note>)
    ensures NoteLayout(notes, None) == Redirect("/", true)
  {
  }
}
