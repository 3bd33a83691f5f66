/**
 * The chef-hat rating widget: five hats filled up to the hovered or the
 * current rating, a click that sets or clears the rating, and a special
 * badge for top-rated items.
 */
module Rating {
  import opened Wrappers

  datatype Size = Small | Large

  /** What the widget draws: the golden-hat panel, the small `TOP` badge, or five hats with their filled state. */
  datatype View = GoldenHat | TopBadge | HatRow(filled: seq<bool>)

  /** The rating a click on hat `index` asks for: clicking the current rating clears it. */
  function ClickedRating(rating: int, index: int): (r: int)
    ensures index == rating ==> r == 0
    ensures index != rating ==> r == index
    ensures 1 <= index <= 5 ==> 0 <= r <= 5
  {
    if index == rating then 0 else index
  }

  /** Clicking the same hat again toggles between that rating and no rating. */
  lemma ClickToggles(rating: int, index: int)
    requires 1 <= index <= 5
    ensures var once := ClickedRating(rating, index);
            var twice := ClickedRating(once, index);
            {once, twice} == {0, index} && once != twice
    ensures ClickedRating(ClickedRating(ClickedRating(rating, index), index), index) == ClickedRating(rating, index)
  {
  }

  /** `hoverRating || rating`: a hover of 0 means no hover, any other hover wins over the rating. */
  function ShownRating(hover: int, rating: int): (r: int)
    ensures hover == 0 ==> r == rating
    ensures hover != 0 ==> r == hover
  {
    if hover != 0 then hover else rating
  }

  /** Hat `index` is filled when the shown rating reaches it: the hover while there is one, else the rating. */
  function IsFilled(hover: int, rating: int, index: int): (b: bool)
    ensures hover == 0 ==> (b <==> rating >= index)
    ensures hover != 0 ==> (b <==> hover >= index)
    ensures b && index > 1 ==> IsFilled(hover, rating, index - 1)
  {
    ShownRating(hover, rating) >= index
  }

  function CountTrue(s: seq<bool>): nat {
    if s == [] then 0 else (if s[0] then 1 else 0) + CountTrue(s[1..])
  }

  /** The widget for a rating, a size and a hover value. */
  function ViewOf(rating: int, size: Size, hover: int): (v: View)
    ensures rating == 5 ==> v == (if size == Large then GoldenHat else TopBadge)
    ensures rating != 5 ==> v.HatRow? && |v.filled| == 5
    ensures v.HatRow? ==> forall i :: 0 <= i < |v.filled| ==> (v.filled[i] <==> IsFilled(hover, rating, i + 1))
  {
    if rating == 5 then (if size == Large then GoldenHat else TopBadge)
    else HatRow(seq(5, i requires 0 <= i < 5 => IsFilled(hover, rating, i + 1)))
  }

  function Clamp(n: int, lo: int, hi: int): int {
    if n < lo then lo else if n > hi then hi else n
  }

  /** The filled hats are a prefix of the row, and there are as many as the shown rating, cut to 0..5. */
  lemma FilledHatsArePrefix(rating: int, size: Size, hover: int)
    requires rating != 5
    ensures var f := ViewOf(rating, size, hover).filled;
            && (forall i, j :: 0 <= i < j < 5 && f[j] ==> f[i])
            && CountTrue(f) == Clamp(ShownRating(hover, rating), 0, 5)
  {
    var f := ViewOf(rating, size, hover).filled;
    var d := ShownRating(hover, rating);
    assert CountTrue(f[4..]) == (if f[4] then 1 else 0) + CountTrue(f[5..]);
    assert CountTrue(f[3..]) == (if f[3] then 1 else 0) + CountTrue(f[4..]);
    assert CountTrue(f[2..]) == (if f[2] then 1 else 0) + CountTrue(f[3..]);
    assert CountTrue(f[1..]) == (if f[1] then 1 else 0) + CountTrue(f[2..]);
    assert CountTrue(f) == (if d >= 1 then 1 else 0) + (if d >= 2 then 1 else 0) + (if d >= 3 then 1 else 0)
                           + (if d >= 4 then 1 else 0) + (if d >= 5 then 1 else 0);
  }

  /**
   * One mounted widget. It is interactive when a rating callback was
   * passed; the hover value is its only state.
   */
  class Widget {
    const rating: int
    const interactive: bool
    const size: Size
    var hoverRating: int

    constructor (rating: int, interactive: bool, size: Size)
      ensures this.rating == rating && this.interactive == interactive && this.size == size
      ensures hoverRating == 0
    {
      this.rating := rating;
      this.interactive := interactive;
      this.size := size;
      hoverRating := 0;
    }

    /** Pointer over hat `index`: shows that many hats, unless the widget is read-only. */
    method MouseOver(index: int)
      modifies this
      ensures hoverRating == if interactive then index else old(hoverRating)
    {
      if !interactive {
        return;
      }
      hoverRating := index;
    }

    /** Pointer leaves a hat: back to the rating itself, unless the widget is read-only. */
    method MouseLeave()
      modifies this
      ensures hoverRating == if interactive then 0 else old(hoverRating)
    {
      if !interactive {
        return;
      }
      hoverRating := 0;
    }

    /** Click on hat `index`: the rating passed to the callback, or none for a read-only widget. */
    method Click(index: int) returns (emitted: Option<int>)
      ensures interactive <==> emitted.Some?
      ensures emitted.Some? ==> emitted.value == ClickedRating(rating, index)
      ensures emitted.Some? && 1 <= index <= 5 ==> 0 <= emitted.value <= 5
    {
      if !interactive {
        return None;
      }
      emitted := Some(ClickedRating(rating, index));
    }

    function Render(): (v: View)
      reads this
      ensures rating != 5 && hoverRating == 0 ==>
                v.HatRow? && |v.filled| == 5 && forall i :: 0 <= i < 5 ==> (v.filled[i] <==> rating >= i + 1)
    {
      ViewOf(rating, size, hoverRating)
    }
  }
}
