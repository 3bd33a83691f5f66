/**
 * The adventure editor: a draft (the adventure without its id and its
 * rating) loaded from the adventure being edited or from defaults, edited
 * entry by entry, overlaid with an adventure extracted from pasted text,
 * and turned back into an adventure on submit.
 */
module AdventureForm {
  import opened Wrappers
  import opened Types
  import Seqs
  import Text

  datatype Draft = Draft(
    title: string,
    description: string,
    imageUrl: string,
    sourceType: SourceType,
    waypoints: seq<string>,
    briefingSteps: seq<string>,
    distanceKm: int,
    durationHours: int,
    difficulty: Difficulty,
    tags: seq<string>)

  /** The draft of a new adventure. */
  function EmptyDraft(): (d: Draft)
    ensures d.title == "" && d.description == "" && d.imageUrl == "" && d.sourceType == Manual
    ensures d.waypoints == [""] && d.briefingSteps == [""] && d.tags == []
    ensures d.difficulty == Medium && d.distanceKm == 0 && d.durationHours == 0
  {
    Draft("", "", "", Manual, [""], [""], 0, 0, Medium, [])
  }

  /** `const { id, rating, ...rest } = editing`: every field but the id and the rating. */
  function DraftOf(a: Adventure): (d: Draft)
    ensures Complete(d, a.id, a.rating) == a
  {
    Draft(a.title, a.description, a.imageUrl, a.sourceType, a.waypoints, a.briefingSteps,
          a.distanceKm, a.durationHours, a.difficulty, a.tags)
  }

  function Complete(d: Draft, id: string, rating: int): Adventure {
    Adventure(id, d.title, d.description, d.imageUrl, d.sourceType, d.waypoints, d.briefingSteps,
              d.distanceKm, d.durationHours, d.difficulty, d.tags, rating)
  }

  /** A draft, an id and a rating are exactly an adventure: splitting and rejoining loses nothing. */
  lemma DraftRoundTrip(a: Adventure, d: Draft, id: string, rating: int)
    ensures Complete(DraftOf(a), a.id, a.rating) == a
    ensures DraftOf(Complete(d, id, rating)) == d
  {
  }

  /** The two editable lists. */
  datatype ListField = Waypoints | BriefingSteps

  function GetList(d: Draft, f: ListField): seq<string> {
    match f
    case Waypoints => d.waypoints
    case BriefingSteps => d.briefingSteps
  }

  /** `{ ...prev, [field]: next }`: that list replaced, everything else kept. */
  function SetList(d: Draft, f: ListField, l: seq<string>): (r: Draft)
    ensures GetList(r, f) == l
    ensures forall g :: g != f ==> GetList(r, g) == GetList(d, g)
    ensures r.(waypoints := d.waypoints, briefingSteps := d.briefingSteps) == d
  {
    match f
    case Waypoints => d.(waypoints := l)
    case BriefingSteps => d.(briefingSteps := l)
  }

  /**
   * What the extraction service may return: the fields of its answer
   * schema, each possibly missing.
   */
  datatype Patch = Patch(
    title: Option<string>,
    description: Option<string>,
    waypoints: Option<seq<string>>,
    briefingSteps: Option<seq<string>>,
    distanceKm: Option<int>,
    durationHours: Option<int>,
    difficulty: Option<Difficulty>,
    tags: Option<seq<string>>)

  function Pick<T>(o: Option<T>, otherwise: T): T {
    if o.Some? then o.value else otherwise
  }

  /** `{ ...prev, ...result, sourceType: AI_IMPORTED }` */
  function Overlay(d: Draft, p: Patch): (r: Draft)
    ensures r.sourceType == AiImported && r.imageUrl == d.imageUrl
    ensures r.title == Pick(p.title, d.title) && r.description == Pick(p.description, d.description)
    ensures r.waypoints == Pick(p.waypoints, d.waypoints) && r.briefingSteps == Pick(p.briefingSteps, d.briefingSteps)
    ensures r.distanceKm == Pick(p.distanceKm, d.distanceKm) && r.durationHours == Pick(p.durationHours, d.durationHours)
    ensures r.difficulty == Pick(p.difficulty, d.difficulty) && r.tags == Pick(p.tags, d.tags)
  {
    Draft(Pick(p.title, d.title), Pick(p.description, d.description), d.imageUrl, AiImported,
          Pick(p.waypoints, d.waypoints), Pick(p.briefingSteps, d.briefingSteps),
          Pick(p.distanceKm, d.distanceKm), Pick(p.durationHours, d.durationHours),
          Pick(p.difficulty, d.difficulty), Pick(p.tags, d.tags))
  }

  /** Importing the same answer twice is importing it once; an empty answer only marks the draft as imported. */
  lemma OverlayIdempotent(d: Draft, p: Patch)
    ensures Overlay(Overlay(d, p), p) == Overlay(d, p)
    ensures Overlay(d, Patch(None, None, None, None, None, None, None, None)) == d.(sourceType := AiImported)
  {
  }

  /**
   * `handleSubmit`: the draft completed with the edited adventure's id
   * (when non-empty, else the fresh id) and its rating (else 0), with
   * blank waypoints and briefing steps dropped.
   */
  function Submitted(d: Draft, editing: Option<Adventure>, freshId: string): (r: Adventure)
    ensures r.id == if editing.Some? && editing.value.id != "" then editing.value.id else freshId
    ensures r.rating == if editing.Some? then editing.value.rating else 0
    ensures r.waypoints == Text.NonBlankEntries(d.waypoints)
    ensures r.briefingSteps == Text.NonBlankEntries(d.briefingSteps)
    ensures DraftOf(r) == d.(waypoints := r.waypoints, briefingSteps := r.briefingSteps)
  {
    var id := if editing.Some? && editing.value.id != "" then editing.value.id else freshId;
    var rating := if editing.Some? && editing.value.rating != 0 then editing.value.rating else 0;
    Complete(d.(waypoints := Text.NonBlankEntries(d.waypoints), briefingSteps := Text.NonBlankEntries(d.briefingSteps)), id, rating)
  }

  /** A submitted adventure has no blank entry and keeps every other entry in order; a new one starts unrated. */
  lemma SubmittedEntries(d: Draft, editing: Option<Adventure>, freshId: string)
    ensures var r := Submitted(d, editing, freshId);
            && (forall i :: 0 <= i < |r.waypoints| ==> !Text.IsBlank(r.waypoints[i]))
            && (forall i :: 0 <= i < |r.briefingSteps| ==> !Text.IsBlank(r.briefingSteps[i]))
            && Seqs.IsSubseq(r.waypoints, d.waypoints)
            && Seqs.IsSubseq(r.briefingSteps, d.briefingSteps)
            && (editing.None? ==> r.id == freshId && r.rating == 0)
  {
    Text.NonBlankEntriesKeepOrder(d.waypoints);
    Text.NonBlankEntriesKeepOrder(d.briefingSteps);
  }

  /** Opening an adventure with a non-empty id and no blank entries and saving it unchanged gives the same adventure back, rating included. */
  lemma EditUnchangedRoundTrip(a: Adventure, freshId: string)
    requires a.id != ""
    requires forall i :: 0 <= i < |a.waypoints| ==> !Text.IsBlank(a.waypoints[i])
    requires forall i :: 0 <= i < |a.briefingSteps| ==> !Text.IsBlank(a.briefingSteps[i])
    ensures Submitted(DraftOf(a), Some(a), freshId) == a
  {
    Text.NonBlankEntriesKeepOrder(a.waypoints);
    Text.NonBlankEntriesKeepOrder(a.briefingSteps);
  }

  /** The open editor: the adventure it was opened for (if any), the draft and the import text. */
  class Form {
    const editing: Option<Adventure>
    var draft: Draft
    var importText: string

    /** Mounting starts from the defaults; the load effect then replaces them with the edited adventure. */
    constructor (editing: Option<Adventure>)
      ensures this.editing == editing
      ensures draft == if editing.Some? then DraftOf(editing.value) else EmptyDraft()
      ensures importText == ""
    {
      this.editing := editing;
      draft := if editing.Some? then DraftOf(editing.value) else EmptyDraft();
      importText := "";
    }

    /** `updateList`: copy the list, write the one entry, store the copy. The index is one the list renders. */
    method UpdateList(f: ListField, index: int, value: string)
      requires 0 <= index < |GetList(draft, f)|
      modifies this
      ensures draft == SetList(old(draft), f, GetList(old(draft), f)[index := value])
      ensures |GetList(draft, f)| == |GetList(old(draft), f)|
      ensures importText == old(importText)
    {
      var next := GetList(draft, f);
      next := next[index := value];
      draft := SetList(draft, f, next);
    }

    /** `+ Add`: an empty entry at the end of the list. */
    method AddEntry(f: ListField)
      modifies this
      ensures draft == SetList(old(draft), f, GetList(old(draft), f) + [""])
      ensures importText == old(importText)
    {
      draft := SetList(draft, f, GetList(draft, f) + [""]);
    }

    /** The bin button of entry `i`: that position removed, the rest in order. */
    method RemoveEntry(f: ListField, i: int)
      modifies this
      ensures draft == SetList(old(draft), f, Seqs.RemoveAt(GetList(old(draft), f), i))
      ensures importText == old(importText)
    {
      draft := SetList(draft, f, Seqs.RemoveAt(GetList(draft, f), i));
    }

    /**
     * `handleAIImport`. Blank text calls nothing. Otherwise the service is
     * called; its answer (`Some`) is overlaid and the text cleared, while a
     * failure (`None`) leaves the draft and the text as they were.
     */
    method Import(outcome: Option<Patch>) returns (called: bool)
      modifies this
      ensures called <==> !Text.IsBlank(old(importText))
      ensures called && outcome.Some? ==> draft == Overlay(old(draft), outcome.value) && importText == ""
      ensures !(called && outcome.Some?) ==> draft == old(draft) && importText == old(importText)
    {
      if Text.IsBlank(importText) {
        return false;
      }
      called := true;
      if outcome.Some? {
        draft := Overlay(draft, outcome.value);
        importText := "";
      }
    }
  }
}
