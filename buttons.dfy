// Arranging buttons in rows: Kotlin's List.toActionRows (utils/extensions/JDAExtensions.kt)
// and Python's create_button_grid and get_buttons (utils.py). A row is a list of components;
// Discord's ActionRow wrapper is the sequence itself.

module Buttons {
  import opened Text
  import opened RoundRobin

  /** The largest i with 3 <= i <= hi that divides n, if there is one. */
  function LargestDivisor(n: nat, hi: int): (r: Option<int>)
    ensures r.Some? ==> 3 <= r.value <= hi && n % r.value == 0
    ensures r.Some? ==> forall j :: r.value < j <= hi ==> n % j != 0
    ensures r.None? ==> forall j :: 3 <= j <= hi ==> n % j != 0
    decreases hi
  {
    if hi < 3 then None
    else if n % hi == 0 then Some(hi)
    else LargestDivisor(n, hi - 1)
  }

  /** The loop shared by both versions (JDAExtensions.kt:126-131, utils.py:183-186): counting
      down from hi to 3, the first width that divides n is taken; otherwise hi is kept. */
  method LargestRowWidth(n: nat, hi: int) returns (w: int)
    ensures LargestDivisor(n, hi).Some? ==> w == LargestDivisor(n, hi).value
    ensures LargestDivisor(n, hi).None? ==> w == hi
  {
    w := hi;
    var i := hi;
    while i >= 3
      invariant i <= hi
      invariant LargestDivisor(n, i) == LargestDivisor(n, hi)
      decreases i
    {
      if n % i == 0 {
        w := i;
        return;
      }
      i := i - 1;
    }
  }

  function Singletons<E>(items: seq<E>): (r: seq<seq<E>>)
    ensures |r| == |items| && forall i :: 0 <= i < |items| ==> r[i] == [items[i]]
  {
    seq(|items|, i requires 0 <= i < |items| => [items[i]])
  }

  /** Rows of width w: together they are the items, each holds 1 to w items, and all but the
      last are full. */
  ghost predicate RowsOfWidth<E>(rows: seq<seq<E>>, items: seq<E>, w: int) {
    && Flatten(rows) == items
    && (forall i :: 0 <= i < |rows| ==> 1 <= |rows[i]| <= w)
    && (forall i :: 0 <= i < |rows| - 1 ==> |rows[i]| == w)
  }

  lemma {:induction false} FlattenSnoc<E>(rows: seq<seq<E>>, row: seq<E>)
    ensures Flatten(rows + [row]) == Flatten(rows) + row
  {
    if rows != [] {
      assert (rows + [row])[1..] == rows[1..] + [row];
      FlattenSnoc(rows[1..], row);
    }
  }

  /** The row loop shared by both versions (JDAExtensions.kt:134-147, utils.py:188-197): a
      full row is closed before the next item goes in, and a non-empty last row is kept. A width
      below 1 (possible only in Python) closes a row before every item, the first one empty. */
  method RowsOf<E>(items: seq<E>, w: int) returns (rows: seq<seq<E>>)
    ensures w >= 1 ==> RowsOfWidth(rows, items, w)
    ensures w < 1 ==> rows == (if items == [] then [] else [[]] + Singletons(items))
    ensures items == [] ==> rows == []
  {
    rows := [];
    var row: seq<E> := [];
    var k := 0;
    while k < |items|
      invariant 0 <= k <= |items|
      invariant k == 0 ==> rows == [] && row == []
      invariant w >= 1 ==> Flatten(rows) + row == items[..k]
      invariant w >= 1 ==> forall i :: 0 <= i < |rows| ==> |rows[i]| == w
      invariant w >= 1 && k > 0 ==> 1 <= |row| <= w
      invariant w < 1 && k > 0 ==> rows == [[]] + Singletons(items[..k - 1]) && row == [items[k - 1]]
    {
      if |row| >= w {
        FlattenSnoc(rows, row);
        if w < 1 && k > 0 {
          assert Singletons(items[..k]) == Singletons(items[..k - 1]) + [[items[k - 1]]];
        }
        rows := rows + [row];
        row := [];
      }
      assert items[..k + 1] == items[..k] + [items[k]];
      row := row + [items[k]];
      k := k + 1;
    }
    assert items[..k] == items;
    if |row| > 0 {
      FlattenSnoc(rows, row);
      if w < 1 {
        assert Singletons(items) == Singletons(items[..k - 1]) + [[items[k - 1]]];
      }
      rows := rows + [row];
    }
  }

  // ---------------------------------------------------------------------------
  // Kotlin: toActionRows

  function Clamp(maxInRow: int): (m: int)
    ensures 1 <= m <= 5
  {
    if maxInRow > 5 then 5 else if maxInRow < 1 then 1 else maxInRow
  }

  /** The row width toActionRows uses (JDAExtensions.kt:124-132): maxInRow brought into 1..5,
      then, with tryModZero and a width above 3, the largest width from 3 up that divides the
      number of items. */
  function ActionRowWidth(size: nat, maxInRow: int, tryModZero: bool): (w: int)
    ensures 1 <= w <= Clamp(maxInRow)
    ensures tryModZero && Clamp(maxInRow) > 3 ==>
              forall i :: 3 <= i <= Clamp(maxInRow) && size % i == 0 ==> i <= w && size % w == 0
    ensures !(tryModZero && Clamp(maxInRow) > 3) ==> w == Clamp(maxInRow)
  {
    var m := Clamp(maxInRow);
    if tryModZero && m > 3 then
      match LargestDivisor(size, m)
      case Some(i) => i
      case None => m
    else m
  }

  /** toActionRows (JDAExtensions.kt:123-148). */
  method ToActionRows<E>(items: seq<E>, maxInRow: int, tryModZero: bool) returns (rows: seq<seq<E>>)
    ensures RowsOfWidth(rows, items, ActionRowWidth(|items|, maxInRow, tryModZero))
    ensures items == [] ==> rows == []
  {
    var maxItems := if maxInRow < 5 then maxInRow else 5;
    maxItems := if maxItems > 1 then maxItems else 1;
    if tryModZero && maxItems > 3 {
      maxItems := LargestRowWidth(|items|, maxItems);
    }
    rows := RowsOf(items, maxItems);
  }

  /** With five buttons and the defaults there is one row of five; six give two rows of three. */
  lemma DefaultWidths()
    ensures ActionRowWidth(5, 5, true) == 5 && ActionRowWidth(6, 5, true) == 3
    ensures ActionRowWidth(7, 5, true) == 5
  {
    assert LargestDivisor(6, 5) == Some(3) by {
      assert 6 % 5 != 0 && 6 % 4 != 0 && 6 % 3 == 0;
    }
    assert LargestDivisor(7, 5) == None by {
      assert 7 % 5 != 0 && 7 % 4 != 0 && 7 % 3 != 0;
    }
  }

  // ---------------------------------------------------------------------------
  // Python: create_button_grid and get_buttons

  /** The row width create_button_grid uses (utils.py:181-186): max_in_row is not bounded, and
      with try_mod_zero the largest width from 3 to max_in_row that divides the count wins. */
  function GridWidth(count: nat, maxInRow: int, tryModZero: bool): (w: int)
    ensures w <= maxInRow && (maxInRow >= 1 ==> w >= 1) && (maxInRow < 1 ==> w == maxInRow)
    ensures tryModZero ==> forall i :: 3 <= i <= maxInRow && count % i == 0 ==> i <= w && count % w == 0
    ensures !tryModZero ==> w == maxInRow
  {
    if tryModZero then
      match LargestDivisor(count, maxInRow)
      case Some(i) => i
      case None => maxInRow
    else maxInRow
  }

  /** create_button_grid (utils.py:172-197). */
  method CreateButtonGrid<E>(buttons: seq<E>, maxInRow: int, tryModZero: bool) returns (rows: seq<seq<E>>)
    ensures maxInRow >= 1 ==> RowsOfWidth(rows, buttons, GridWidth(|buttons|, maxInRow, tryModZero))
    ensures maxInRow < 1 ==> rows == (if buttons == [] then [] else [[]] + Singletons(buttons))
    ensures buttons == [] ==> rows == []
  {
    var width := maxInRow;
    if tryModZero {
      width := LargestRowWidth(|buttons|, maxInRow);
    }
    rows := RowsOf(buttons, width);
  }

  /** What get_buttons walks (utils.py:154-169): a list, an action row and its components, a
      button, or anything else (which holds no button). */
  datatype Component<B> = Items(elems: seq<Component<B>>) | ActionRow(components: seq<Component<B>>) | Button(button: B) | Other

  /** get_buttons: the buttons in depth-first, left-to-right order. */
  function GetButtons<B>(c: Component<B>): seq<B>
    decreases c, 1
  {
    match c
    case Items(cs) => GetButtonsAll(cs)
    case ActionRow(cs) => GetButtonsAll(cs)
    case Button(b) => [b]
    case Other => []
  }

  function GetButtonsAll<B>(cs: seq<Component<B>>): seq<B>
    decreases cs, 0
  {
    if cs == [] then [] else GetButtons(cs[0]) + GetButtonsAll(cs[1..])
  }

  /** The buttons of two lists of components one after the other are the buttons of the first
      list followed by those of the second: the walk is left to right. */
  lemma {:induction false} GetButtonsAppend<B>(a: seq<Component<B>>, b: seq<Component<B>>)
    ensures GetButtonsAll(a + b) == GetButtonsAll(a) + GetButtonsAll(b)
  {
    if a != [] {
      assert (a + b)[1..] == a[1..] + b;
      GetButtonsAppend(a[1..], b);
      assert (a + b)[0] == a[0];
      assert GetButtonsAll(a + b) == GetButtons(a[0]) + GetButtonsAll(a[1..] + b);
    } else {
      assert a + b == b;
    }
  }

  /** The components of a grid: a list of action rows of buttons. */
  function Grid<B>(rows: seq<seq<B>>): (c: Component<B>)
    ensures c.Items? && |c.elems| == |rows|
  {
    Items(seq(|rows|, i requires 0 <= i < |rows| => ActionRow(seq(|rows[i]|, j requires 0 <= j < |rows[i]| => Button(rows[i][j])))))
  }

  lemma {:induction false} ButtonsOfRow<B>(row: seq<B>)
    ensures GetButtonsAll(seq(|row|, j requires 0 <= j < |row| => Button(row[j]))) == row
  {
    var cs := seq(|row|, j requires 0 <= j < |row| => Button(row[j]));
    if row != [] {
      assert cs[1..] == seq(|row[1..]|, j requires 0 <= j < |row[1..]| => Button(row[1..][j]));
      ButtonsOfRow(row[1..]);
    }
  }

  /** Reading the buttons back from a grid gives the rows one after another; with the row
      contracts above, the buttons of a grid made by create_button_grid are its input, in order. */
  lemma {:induction false} ButtonsOfGrid<B>(rows: seq<seq<B>>)
    ensures GetButtons(Grid(rows)) == Flatten(rows)
  {
    if rows != [] {
      var es := Grid(rows).elems;
      ButtonsOfRow(rows[0]);
      assert GetButtons(es[0]) == rows[0];
      assert es[1..] == Grid(rows[1..]).elems;
      ButtonsOfGrid(rows[1..]);
      assert GetButtons(Grid(rows)) == GetButtons(es[0]) + GetButtonsAll(es[1..]);
    }
  }
}
