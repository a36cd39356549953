/** The quantity picker of modules/bot/src/dish.py: a page of six values
    max-5 .. max in a 3x2 grid, a navigation row and a "Cancel dish" row, and
    the prompt line appended to and stripped from the dish message. */
module Picker {
  import opened Utility
  import opened Constants
  import opened Session

  /** The page the picker opens on. */
  const FirstPage: int := 6

  /** A page the picker can show: max in {6, 12, ..., 60}. */
  predicate ValidPage(maxValue: int) {
    6 <= maxValue <= 60 && maxValue % 6 == 0
  }

  /** The six value buttons of a page, in increasing order. */
  function PageValues(ref: DishRef, maxValue: int): seq<Callback> {
    seq(6, i => QuantityPress(ref, maxValue - 5 + i))
  }

  /** `<<` only above the first page, `>>` only below the last. */
  function NavRow(ref: DishRef, maxValue: int): seq<Callback> {
    (if maxValue > 6 then [QuantityBack(ref, maxValue)] else [])
    + (if maxValue < 60 then [QuantityNext(ref, maxValue)] else [])
  }

  lemma SixInTwoRows<T>(lst: seq<T>)
    requires |lst| == 6
    ensures ListSplit(lst, 3) == [lst[..3], lst[3..]]
  {
    ListSplitIsChunks(lst, 3);
    assert Chunks(lst[3..], 3) == [lst[3..]];
  }

  /** create_quantity_keyboard: two rows of values, the navigation row (which
      may be empty) and the cancel row. */
  function QuantityKeyboard(ref: DishRef, maxValue: int): seq<seq<Callback>>
  {
    ListSplit(PageValues(ref, maxValue), 3) + [NavRow(ref, maxValue)] + [[CancelDishPress(ref)]]
  }

  /** The layout the source builds: values max-5 .. max in two rows of three,
      `<<` exactly when max > 6, `>>` exactly when max < 60, and "Cancel
      dish" alone in the last row. */
  lemma QuantityKeyboardLayout(ref: DishRef, maxValue: int)
    ensures var rows := QuantityKeyboard(ref, maxValue);
            && |rows| == 4
            && |rows[0]| == 3 && |rows[1]| == 3
            && (forall j :: 0 <= j < 3 ==> rows[0][j] == QuantityPress(ref, maxValue - 5 + j))
            && (forall j :: 0 <= j < 3 ==> rows[1][j] == QuantityPress(ref, maxValue - 2 + j))
            && (QuantityBack(ref, maxValue) in rows[2] <==> maxValue > 6)
            && (QuantityNext(ref, maxValue) in rows[2] <==> maxValue < 60)
            && (forall cb :: cb in rows[2] ==> cb == QuantityBack(ref, maxValue) || cb == QuantityNext(ref, maxValue))
            && rows[3] == [CancelDishPress(ref)]
  {
    SixInTwoRows(PageValues(ref, maxValue));
  }

  /** The picker offers exactly the quantities max-5 .. max. */
  lemma QuantityKeyboardValues(ref: DishRef, maxValue: int, q: int)
    ensures QuantityPress(ref, q) in Flat(QuantityKeyboard(ref, maxValue)) <==> maxValue - 5 <= q <= maxValue
  {
    var rows := QuantityKeyboard(ref, maxValue);
    QuantityKeyboardLayout(ref, maxValue);
    if maxValue - 5 <= q <= maxValue {
      if q <= maxValue - 3 {
        assert rows[0][q - maxValue + 5] == QuantityPress(ref, q);
      } else {
        assert rows[1][q - maxValue + 2] == QuantityPress(ref, q);
      }
    }
  }

  /** `max_value += 6 - 12 * is_back` */
  function MovePage(maxValue: int, isBack: bool): (next: int)
    ensures isBack ==> next < maxValue
    ensures !isBack ==> next > maxValue
    ensures next - maxValue == 6 || maxValue - next == 6
  {
    maxValue + 6 - 12 * (if isBack then 1 else 0)
  }

  /** A page move offered on a valid page lands on a valid page. */
  lemma MoveKeepsPageValid(maxValue: int, isBack: bool)
    requires ValidPage(maxValue)
    requires isBack ==> maxValue > 6
    requires !isBack ==> maxValue < 60
    ensures ValidPage(MovePage(maxValue, isBack))
  {
    var next := MovePage(maxValue, isBack);
    if isBack {
      assert next == maxValue - 6;
      assert next % 6 == 0 by { ShiftByDivisor(next, 6); }
    } else {
      assert next == maxValue + 6;
      ShiftByDivisor(maxValue, 6);
    }
  }

  /** Every value a valid page offers is a quantity in 1..60. */
  lemma ValidPageOffersQuantities(ref: DishRef, maxValue: int, q: int)
    requires ValidPage(maxValue)
    requires QuantityPress(ref, q) in Flat(QuantityKeyboard(ref, maxValue))
    ensures 1 <= q <= 60
  {
    QuantityKeyboardValues(ref, maxValue, q);
  }

  /** The prompt line: "\n\n" + select_quantity + ":". */
  const Prompt: string := "\n\n" + SelectQuantityText + ":"

  /** Opening the picker appends the prompt to the dish message. */
  function OpenText(body: string): (t: string)
    ensures |t| == |body| + 18
    ensures t[..|body|] == body
  {
    body + Prompt
  }

  /** `text[:-(len(select_quantity) + 1)]`: Python's slice drops the last 16
      characters, and leaves nothing of a shorter text. */
  function StripText(body: string): (t: string)
    ensures |body| >= |SelectQuantityText| + 1 ==> |t| == |body| - (|SelectQuantityText| + 1)
    ensures |body| < |SelectQuantityText| + 1 ==> t == []
    ensures body[..|t|] == t
  {
    var k := |SelectQuantityText| + 1;
    if |body| >= k then body[..|body| - k] else []
  }

  /** Opening and then closing the picker leaves the original text followed
      by the two line breaks of the prompt: only the text "Select quantity:"
      is taken away again. */
  lemma OpenThenStrip(body: string)
    ensures StripText(OpenText(body)) == body + "\n\n"
  {
    var t := OpenText(body);
    assert t == body + "\n\n" + (SelectQuantityText + ":");
  }
}
