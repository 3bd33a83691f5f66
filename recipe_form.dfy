/**
 * The recipe editor: a draft (the recipe without its id) loaded from the
 * recipe being edited or from defaults, edited entry by entry, overlaid
 * with a recipe extracted from pasted text, and turned back into a recipe
 * on submit.
 */
module RecipeForm {
  import opened Wrappers
  import opened Types
  import Seqs
  import Text

  datatype Draft = Draft(
    title: string,
    description: string,
    imageUrl: string,
    sourceType: SourceType,
    ingredients: seq<string>,
    instructions: seq<string>,
    prepTime: Option<int>,
    cookTime: Option<int>,
    servings: Option<int>,
    tags: seq<string>,
    rating: int)

  /** The draft of a new recipe. */
  function EmptyDraft(): (d: Draft)
    ensures d.title == "" && d.description == "" && d.imageUrl == "" && d.sourceType == Manual
    ensures d.ingredients == [""] && d.instructions == [""] && d.tags == []
    ensures d.prepTime == Some(10) && d.cookTime == Some(20) && d.servings == Some(4) && d.rating == 3
  {
    Draft("", "", "", Manual, [""], [""], Some(10), Some(20), Some(4), [], 3)
  }

  /** The draft of a recipe being edited: every field but the id. */
  function DraftOf(r: Recipe): (d: Draft)
    ensures WithId(d, r.id) == r
  {
    Draft(r.title, r.description, r.imageUrl, r.sourceType, r.ingredients, r.instructions,
          r.prepTime, r.cookTime, r.servings, r.tags, r.rating)
  }

  function WithId(d: Draft, id: string): Recipe {
    Recipe(id, d.title, d.description, d.imageUrl, d.sourceType, d.ingredients, d.instructions,
           d.prepTime, d.cookTime, d.servings, d.tags, d.rating)
  }

  /** A draft and an id are exactly a recipe: splitting and rejoining loses nothing. */
  lemma DraftRoundTrip(r: Recipe, d: Draft, id: string)
    ensures WithId(DraftOf(r), r.id) == r
    ensures DraftOf(WithId(d, id)) == d && WithId(d, id).id == id
  {
  }

  /** The two editable lists. */
  datatype ListField = Ingredients | Instructions

  function GetList(d: Draft, f: ListField): seq<string> {
    match f
    case Ingredients => d.ingredients
    case Instructions => d.instructions
  }

  /** `{ ...prev, [field]: next }`: that list replaced, everything else kept. */
  function SetList(d: Draft, f: ListField, l: seq<string>): (r: Draft)
    ensures GetList(r, f) == l
    ensures forall g :: g != f ==> GetList(r, g) == GetList(d, g)
    ensures r.(ingredients := d.ingredients, instructions := d.instructions) == d
  {
    match f
    case Ingredients => d.(ingredients := l)
    case Instructions => d.(instructions := l)
  }

  /**
   * What the extraction service may return: the fields of its answer
   * schema, each possibly missing.
   */
  datatype Patch = Patch(
    title: Option<string>,
    description: Option<string>,
    ingredients: Option<seq<string>>,
    instructions: Option<seq<string>>,
    prepTime: Option<int>,
    cookTime: Option<int>,
    servings: Option<int>,
    tags: Option<seq<string>>)

  function Pick<T>(o: Option<T>, otherwise: T): T {
    if o.Some? then o.value else otherwise
  }

  /** `{ ...prev, ...result, sourceType: AI_IMPORTED }` */
  function Overlay(d: Draft, p: Patch): (r: Draft)
    ensures r.sourceType == AiImported && r.imageUrl == d.imageUrl && r.rating == d.rating
    ensures r.title == Pick(p.title, d.title) && r.description == Pick(p.description, d.description)
    ensures r.ingredients == Pick(p.ingredients, d.ingredients) && r.instructions == Pick(p.instructions, d.instructions)
    ensures r.prepTime == (if p.prepTime.Some? then p.prepTime else d.prepTime)
    ensures r.cookTime == (if p.cookTime.Some? then p.cookTime else d.cookTime)
    ensures r.servings == (if p.servings.Some? then p.servings else d.servings)
    ensures r.tags == Pick(p.tags, d.tags)
  {
    Draft(Pick(p.title, d.title), Pick(p.description, d.description), d.imageUrl, AiImported,
          Pick(p.ingredients, d.ingredients), Pick(p.instructions, d.instructions),
          if p.prepTime.Some? then p.prepTime else d.prepTime,
          if p.cookTime.Some? then p.cookTime else d.cookTime,
          if p.servings.Some? then p.servings else d.servings,
          Pick(p.tags, d.tags), d.rating)
  }

  /** Importing the same answer twice is importing it once; an empty answer only marks the draft as imported. */
  lemma OverlayIdempotent(d: Draft, p: Patch)
    ensures Overlay(Overlay(d, p), p) == Overlay(d, p)
    ensures Overlay(d, Patch(None, None, None, None, None, None, None, None)) == d.(sourceType := AiImported)
  {
  }

  /**
   * `handleSubmit`: the draft with the edited recipe's id when it has a
   * non-empty one, the fresh id otherwise, and with blank ingredients and
   * instructions dropped.
   */
  function Submitted(d: Draft, editing: Option<Recipe>, freshId: string): (r: Recipe)
    ensures r.id == if editing.Some? && editing.value.id != "" then editing.value.id else freshId
    ensures r.ingredients == Text.NonBlankEntries(d.ingredients)
    ensures r.instructions == Text.NonBlankEntries(d.instructions)
    ensures DraftOf(r) == d.(ingredients := r.ingredients, instructions := r.instructions)
  {
    var id := if editing.Some? && editing.value.id != "" then editing.value.id else freshId;
    WithId(d.(ingredients := Text.NonBlankEntries(d.ingredients), instructions := Text.NonBlankEntries(d.instructions)), id)
  }

  /** A submitted recipe has no blank entry, keeps every other entry in order, and its id is never the empty string when the fresh one is not. */
  lemma SubmittedEntries(d: Draft, editing: Option<Recipe>, freshId: string)
    ensures var r := Submitted(d, editing, freshId);
            && (forall i :: 0 <= i < |r.ingredients| ==> !Text.IsBlank(r.ingredients[i]))
            && (forall i :: 0 <= i < |r.instructions| ==> !Text.IsBlank(r.instructions[i]))
            && Seqs.IsSubseq(r.ingredients, d.ingredients)
            && Seqs.IsSubseq(r.instructions, d.instructions)
            && (freshId != "" ==> r.id != "")
  {
    Text.NonBlankEntriesKeepOrder(d.ingredients);
    Text.NonBlankEntriesKeepOrder(d.instructions);
  }

  /** Opening a recipe with a non-empty id and no blank entries and saving it unchanged gives the same recipe back. */
  lemma EditUnchangedRoundTrip(r: Recipe, freshId: string)
    requires r.id != ""
    requires forall i :: 0 <= i < |r.ingredients| ==> !Text.IsBlank(r.ingredients[i])
    requires forall i :: 0 <= i < |r.instructions| ==> !Text.IsBlank(r.instructions[i])
    ensures Submitted(DraftOf(r), Some(r), freshId) == r
  {
    Text.NonBlankEntriesKeepOrder(r.ingredients);
    Text.NonBlankEntriesKeepOrder(r.instructions);
  }

  /** The open editor: the recipe it was opened for (if any), the draft and the import text. */
  class Form {
    const editing: Option<Recipe>
    var draft: Draft
    var importText: string

    /** Mounting starts from the defaults; the load effect then replaces them with the edited recipe. */
    constructor (editing: Option<Recipe>)
      ensures this.editing == editing
      ensures draft == if editing.Some? then DraftOf(editing.value) else EmptyDraft()
      ensures importText == ""
    {
      this.editing := editing;
      draft := if editing.Some? then DraftOf(editing.value) else EmptyDraft();
      importText := "";
    }

    /** `updateList`: copy the list, write the one entry, store the copy. The index is one the list renders. */
    method UpdateList(f: ListField, index: int, value: string)
      requires 0 <= index < |GetList(draft, f)|
      modifies this
      ensures draft == SetList(old(draft), f, GetList(old(draft), f)[index := value])
      ensures |GetList(draft, f)| == |GetList(old(draft), f)|
      ensures importText == old(importText)
    {
      var next := GetList(draft, f);
      next := next[index := value];
      draft := SetList(draft, f, next);
    }

    /** `+ Add`: an empty entry at the end of the list. */
    method AddEntry(f: ListField)
      modifies this
      ensures draft == SetList(old(draft), f, GetList(old(draft), f) + [""])
      ensures importText == old(importText)
    {
      draft := SetList(draft, f, GetList(draft, f) + [""]);
    }

    /** The bin button of entry `i`: that position removed, the rest in order. */
    method RemoveEntry(f: ListField, i: int)
      modifies this
      ensures draft == SetList(old(draft), f, Seqs.RemoveAt(GetList(old(draft), f), i))
      ensures importText == old(importText)
    {
      draft := SetList(draft, f, Seqs.RemoveAt(GetList(draft, f), i));
    }

    /**
     * `handleAIImport`. Blank text calls nothing. Otherwise the service is
     * called; its answer (`Some`) is overlaid and the text cleared, while a
     * failure (`None`) leaves the draft and the text as they were.
     */
    method Import(outcome: Option<Patch>) returns (called: bool)
      modifies this
      ensures called <==> !Text.IsBlank(old(importText))
      ensures called && outcome.Some? ==> draft == Overlay(old(draft), outcome.value) && importText == ""
      ensures !(called && outcome.Some?) ==> draft == old(draft) && importText == old(importText)
    {
      if Text.IsBlank(importText) {
        return false;
      }
      called := true;
      if outcome.Some? {
        draft := Overlay(draft, outcome.value);
        importText := "";
      }
    }
  }
}
