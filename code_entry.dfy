/**
 * The six-cell verification-code input of the email-verification page: typing
 * or pasting into a cell, moving the focus, and the auto-submit and
 * submit-enabled conditions.
 */
module CodeEntry {
  import opened Wrappers

  const Cells := 6

  function Min(a: int, b: int): int {
    if a <= b then a else b
  }

  /** The cells a paste of `value` fills: its first six characters, one a cell, the rest empty. */
  function Pasted(value: string): seq<string> {
    seq(Cells, i requires 0 <= i < Cells => if i < |value| then [value[i]] else "")
  }

  /** `findLastIndex(cell => cell !== "")`: -1 when every cell is empty. */
  function LastFilledIndex(cells: seq<string>): (r: int)
    ensures -1 <= r < |cells|
    ensures r >= 0 ==> cells[r] != ""
    ensures forall k :: r < k < |cells| ==> cells[k] == ""
  {
    if cells == [] then -1
    else if cells[|cells| - 1] != "" then |cells| - 1
    else LastFilledIndex(cells[..|cells| - 1])
  }

  /** A paste fills a prefix: the last filled cell is the one before the first left empty. */
  lemma PastedLastFilled(value: string)
    ensures LastFilledIndex(Pasted(value)) == Min(|value|, Cells) - 1
  {
    var cells, n := Pasted(value), Min(|value|, Cells);
    assert n > 0 ==> cells[n - 1] != "";
    assert forall k :: n <= k < Cells ==> cells[k] == "";
  }

  /** The code the form sends: the cells joined. */
  function Join(cells: seq<string>): (r: string)
    ensures (forall i :: 0 <= i < |cells| ==> |cells[i]| == 1) ==>
      |r| == |cells| && forall i :: 0 <= i < |cells| ==> r[i] == cells[i][0]
  {
    if cells == [] then "" else Join(cells[..|cells| - 1]) + cells[|cells| - 1]
  }

  predicate AllFilled(cells: seq<string>) {
    forall i :: 0 <= i < |cells| ==> cells[i] != ""
  }

  /** The effect's test: once every cell is filled the form submits the joined code. */
  function AutoSubmit(cells: seq<string>): (r: Option<string>)
    ensures r.Some? <==> AllFilled(cells)
    ensures r.Some? ==> r.value == Join(cells)
  {
    if AllFilled(cells) then Some(Join(cells)) else None
  }

  /** The button is disabled while loading or while some cell is empty. */
  function SubmitDisabled(isLoading: bool, cells: seq<string>): (r: bool)
    ensures r <==> isLoading || exists i :: 0 <= i < |cells| && cells[i] == ""
  {
    isLoading || !AllFilled(cells)
  }

  /** When not loading, the button is enabled exactly when auto-submit fires. */
  lemma ButtonAgreesWithAutoSubmit(cells: seq<string>)
    ensures !SubmitDisabled(false, cells) <==> AutoSubmit(cells).Some?
  {
  }

  lemma {:induction false} JoinOfSingles(cells: seq<string>, value: string)
    requires |cells| <= |value|
    requires forall i :: 0 <= i < |cells| ==> cells[i] == [value[i]]
    ensures Join(cells) == value[..|cells|]
  {
    var n := |cells|;
    if n > 0 {
      var front := cells[..n - 1];
      assert forall i :: 0 <= i < |front| ==> front[i] == cells[i];
      JoinOfSingles(front, value);
      assert Join(cells) == value[..n - 1] + [value[n - 1]];
      assert value[..n] == value[..n - 1] + [value[n - 1]];
    }
  }

  /** Pasting a six-character code fills every cell and submits exactly that code. */
  lemma PastedCodeIsSubmittedVerbatim(value: string)
    requires |value| == Cells
    ensures AutoSubmit(Pasted(value)) == Some(value)
  {
    JoinOfSingles(Pasted(value), value);
    assert value[..Cells] == value;
  }

  class CodeInput {
    var code: seq<string>
    /** The cell that has the keyboard focus. */
    var focus: nat

    /** Six cells of at most one character each, and a focus on one of them. */
    ghost predicate Valid()
      reads this
    {
      |code| == Cells && (forall i :: 0 <= i < Cells ==> |code[i]| <= 1) && focus < Cells
    }

    constructor ()
      ensures Valid() && code == ["", "", "", "", "", ""] && focus == 0
    {
      code := ["", "", "", "", "", ""];
      focus := 0;
    }

    /**
     * A change in cell `index`. A value longer than one character is a paste:
     * it refills all six cells, ignoring `index`, and moves the focus past the
     * last filled cell, never beyond the sixth. Otherwise only cell `index`
     * changes, and a non-empty value moves the focus to the next cell.
     */
    method HandleChange(index: nat, value: string)
      requires Valid() && index < Cells
      modifies this
      ensures Valid()
      ensures |value| > 1 ==>
                code == Pasted(value) &&
                focus == (if LastFilledIndex(code) < 5 then LastFilledIndex(code) + 1 else 5) &&
                focus == Min(|value|, 5)
      ensures |value| <= 1 ==>
                code == old(code)[index := value] &&
                focus == (if value != "" && index < 5 then index + 1 else old(focus))
    {
      var current := code;
      var newCode := new string[Cells](i requires 0 <= i < Cells => current[i]);
      if |value| > 1 {
        var pasted := if |value| <= 6 then value else value[..6];
        for i := 0 to Cells
          invariant forall k :: 0 <= k < i ==> newCode[k] == Pasted(value)[k]
        {
          newCode[i] := if i < |pasted| then [pasted[i]] else "";
        }
        code := newCode[..];
        var lastFilled := LastFilledIndex(code);
        PastedLastFilled(value);
        focus := if lastFilled < 5 then lastFilled + 1 else 5;
      } else {
        newCode[index] := value;
        code := newCode[..];
        if value != "" && index < 5 {
          focus := index + 1;
        }
      }
    }

    /** Backspace in an empty cell other than the first moves the focus back one cell. */
    method HandleKeyDown(index: nat, key: string)
      requires Valid() && index < Cells
      modifies this
      ensures Valid() && code == old(code)
      ensures focus == (if key == "Backspace" && code[index] == "" && index > 0 then index - 1 else old(focus))
    {
      if key == "Backspace" && code[index] == "" && index > 0 {
        focus := index - 1;
      }
    }
  }
}
