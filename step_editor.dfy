/** The step editor of `gui/dialogs/step_editor.py`: the `current_actions`
    list that the dialog edits in place (add, delete, move up and down,
    template insertion), and the code that `_generate_script` emits for
    each step. The selection of the tree is given as the rows of the
    selected items, in selection order, read from a tree that shows one
    row per step. A `_delete_step` that raises skips `load_steps` and
    leaves the tree stale; the model assumes it is reloaded before the
    next selection is read. */
module StepEditing {
  import opened Wrappers
  import opened Json
  import Text

  /* ---------------------------------------------------------- new steps */

  /** The keys of the step `_add_step` appends, in insertion order. */
  const NewStepKeys: seq<string> :=
    ["time", "type", "target", "action", "params", "wait", "timeout", "retry", "continue_on_failure", "description"]

  const NewStepValues: seq<Value> :=
    [Str(""), Str("click"), Str(""), Str(""), Dict([]), Int(1000), Int(10000), Int(3), Bool(false), Str("")]

  /** The default step of `_add_step`. */
  function NewStep(): (o: Object)
    ensures |o| == |NewStepKeys|
  {
    Zip(NewStepKeys, NewStepValues)
  }

  /** The default step is a click with each key once, a wait of a second,
      a timeout of ten seconds, three retries, and stops on failure. */
  lemma NewStepSpec()
    ensures KeysUnique(NewStep())
    ensures Lookup(NewStep(), "type") == Some(Str("click"))
    ensures Lookup(NewStep(), "wait") == Some(Int(1000))
    ensures Lookup(NewStep(), "timeout") == Some(Int(10000))
    ensures Lookup(NewStep(), "retry") == Some(Int(3))
    ensures Lookup(NewStep(), "continue_on_failure") == Some(Bool(false))
  {
    ZipUnique(NewStepKeys, NewStepValues);
    ZipUniqueAt(NewStepKeys, NewStepValues, 1);
    ZipUniqueAt(NewStepKeys, NewStepValues, 5);
    ZipUniqueAt(NewStepKeys, NewStepValues, 6);
    ZipUniqueAt(NewStepKeys, NewStepValues, 7);
    ZipUniqueAt(NewStepKeys, NewStepValues, 8);
  }

  /* --------------------------------------------------------- selections */

  /** The rows of the selected items: distinct rows of a tree of `n` rows. */
  predicate ValidSelection(selected: seq<int>, n: int) {
    && (forall i :: 0 <= i < |selected| ==> 0 <= selected[i] < n)
    && (forall i, j :: 0 <= i < j < |selected| ==> selected[i] != selected[j])
  }

  /** `s[i], s[j] = s[j], s[i]`: the two positions trade places, nothing
      else moves, and no step is gained or lost. */
  function Swap<T>(s: seq<T>, i: int, j: int): (r: seq<T>)
    requires 0 <= i < |s| && 0 <= j < |s|
    ensures |r| == |s| && r[i] == s[j] && r[j] == s[i]
    ensures forall k :: 0 <= k < |s| && k != i && k != j ==> r[k] == s[k]
    ensures multiset(r) == multiset(s)
  {
    s[i := s[j]][j := s[i]]
  }

  /** Swapping the same two positions again restores the list: moving a
      step up and then down again changes nothing. */
  lemma SwapTwice<T>(s: seq<T>, i: int, j: int)
    requires 0 <= i < |s| && 0 <= j < |s|
    ensures Swap(Swap(s, i, j), i, j) == s
  {
    var r := Swap(Swap(s, i, j), i, j);
    assert forall k :: 0 <= k < |s| ==> r[k] == s[k];
  }

  /* ----------------------------------------------------------- deleting */

  /** `s.pop(i)`: the list without position `i`. */
  function Pop<T>(s: seq<T>, i: int): (r: seq<T>)
    requires 0 <= i < |s|
    ensures |r| == |s| - 1
    ensures forall k :: 0 <= k < i ==> r[k] == s[k]
    ensures forall k :: i <= k < |r| ==> r[k] == s[k + 1]
  {
    s[..i] + s[i + 1..]
  }

  /** The pops of `_delete_step`, in selection order, each at the row its
      item had before any pop: a negative row is skipped and a row past the
      end raises, keeping the pops made before it. The flag says whether it
      raised; when it did not, one step went per row. */
  function PopEach<T>(s: seq<T>, rows: seq<int>): (r: (seq<T>, bool))
    ensures !r.1 && (forall i :: 0 <= i < |rows| ==> rows[i] >= 0) ==> |r.0| == |s| - |rows|
  {
    if rows == [] then (s, false)
    else if rows[0] < 0 then PopEach(s, rows[1..])
    else if rows[0] >= |s| then (s, true)
    else PopEach(Pop(s, rows[0]), rows[1..])
  }

  /** The steps whose rows are not among `rows`, in their order: what
      deleting the selected rows means. */
  function WithoutRows<T>(s: seq<T>, rows: seq<int>): seq<T> {
    if s == [] then []
    else WithoutRows(s[..|s| - 1], rows) + (if |s| - 1 in rows then [] else [s[|s| - 1]])
  }

  /** The number of rows below `n` that are among `rows`. */
  function CountBelow(rows: seq<int>, n: nat): (c: nat)
    ensures c <= n
  {
    if n == 0 then 0 else CountBelow(rows, n - 1) + (if n - 1 in rows then 1 else 0)
  }

  /** Deleting removes one step per selected row. */
  lemma {:induction false} WithoutRowsLength<T>(s: seq<T>, rows: seq<int>)
    ensures |WithoutRows(s, rows)| == |s| - CountBelow(rows, |s|)
  {
    if s != [] {
      WithoutRowsLength(s[..|s| - 1], rows);
    }
  }

  /** Every step that is not selected is kept, moved up by the number of
      selected rows above it. */
  lemma {:induction false} WithoutRowsAt<T>(s: seq<T>, rows: seq<int>, j: int)
    requires 0 <= j < |s| && j !in rows
    ensures j - CountBelow(rows, j) < |WithoutRows(s, rows)|
    ensures WithoutRows(s, rows)[j - CountBelow(rows, j)] == s[j]
  {
    var init := s[..|s| - 1];
    WithoutRowsLength(init, rows);
    if j < |s| - 1 {
      WithoutRowsAt(init, rows, j);
    }
  }

  /** With no selected row among them, the steps stay as they are. */
  lemma {:induction false} WithoutNoRows<T>(s: seq<T>, rows: seq<int>)
    requires forall k :: 0 <= k < |s| ==> k !in rows
    ensures WithoutRows(s, rows) == s
  {
    if s != [] {
      WithoutNoRows(s[..|s| - 1], rows);
    }
  }

  /** Deleting one row is popping it. */
  lemma {:induction false} WithoutOneRow<T>(s: seq<T>, i: int)
    requires 0 <= i < |s|
    ensures WithoutRows(s, [i]) == Pop(s, i)
  {
    var init := s[..|s| - 1];
    if i == |s| - 1 {
      WithoutNoRows(init, [i]);
    } else {
      WithoutOneRow(init, i);
      assert Pop(init, i) + [s[|s| - 1]] == Pop(s, i);
    }
  }

  /** A single selected step is deleted as intended. */
  lemma DeleteSingle<T>(s: seq<T>, i: int)
    requires 0 <= i < |s|
    ensures PopEach(s, [i]) == (WithoutRows(s, [i]), false)
  {
    assert [i][1..] == [];
    WithoutOneRow(s, i);
  }

  /** With two selected rows the rows go stale after the first pop: rows 1
      and 2 of four steps delete the second and the fourth step instead of
      the second and the third, and rows 2 and 3 raise after deleting the
      third, leaving the fourth in place. */
  lemma DeleteStaleRows<T>(a: T, b: T, c: T, d: T)
    requires c != d
    ensures PopEach([a, b, c, d], [1, 2]) == ([a, c], false)
    ensures WithoutRows([a, b, c, d], [1, 2]) == [a, d]
    ensures PopEach([a, b, c, d], [1, 2]).0 != WithoutRows([a, b, c, d], [1, 2])
    ensures PopEach([a, b, c, d], [2, 3]) == ([a, b, d], true)
  {
    var s := [a, b, c, d];
    assert Pop(s, 1) == [a, c, d];
    assert Pop([a, c, d], 2) == [a, c];
    assert [1, 2][1..] == [2] && [2][1..] == [];
    assert PopEach([a, c, d], [2]) == ([a, c], false);
    assert Pop(s, 2) == [a, b, d];
    assert [2, 3][1..] == [3];
    assert s[..3] == [a, b, c] && [a, b, c][..2] == [a, b] && [a, b][..1] == [a] && [a][..0] == [];
    assert WithoutRows([a], [1, 2]) == [a];
    assert WithoutRows([a, b], [1, 2]) == [a];
    assert WithoutRows([a, b, c], [1, 2]) == [a];
    assert [a, c] != [a, d] by {
      assert [a, c][1] != [a, d][1];
    }
  }

  /* ------------------------------------------------------------- editor */

  class StepEditor {
    /** `current_actions`: the steps, one per row of the tree. */
    var actions: seq<Object>

    /** The dialog starts from a copy of the steps it is given. */
    constructor (steps: seq<Object>)
      ensures actions == steps
    {
      actions := steps;
    }

    /** `_add_step`: the default step is appended. */
    method AddStep()
      modifies this
      ensures actions == old(actions) + [NewStep()]
    {
      actions := actions + [NewStep()];
    }

    /** `_move_step_up`: the first selected step trades places with the one
        above it; nothing happens without a selection or on the first row. */
    method MoveUp(selected: seq<int>)
      requires ValidSelection(selected, |actions|)
      modifies this
      ensures selected != [] && selected[0] > 0 ==>
        actions == Swap(old(actions), selected[0] - 1, selected[0])
      ensures selected == [] || selected[0] == 0 ==> actions == old(actions)
    {
      if selected == [] {
        return;
      }
      var index := selected[0];
      if index > 0 {
        actions := Swap(actions, index - 1, index);
      }
    }

    /** `_move_step_down`: the first selected step trades places with the
        one below it; nothing happens without a selection or on the last
        row. */
    method MoveDown(selected: seq<int>)
      requires ValidSelection(selected, |actions|)
      modifies this
      ensures selected != [] && selected[0] < |old(actions)| - 1 ==>
        actions == Swap(old(actions), selected[0], selected[0] + 1)
      ensures selected == [] || selected[0] == |old(actions)| - 1 ==> actions == old(actions)
    {
      if selected == [] {
        return;
      }
      var index := selected[0];
      if index < |actions| - 1 {
        actions := Swap(actions, index, index + 1);
      }
    }

    /** `_delete_step` as written: after confirmation, pops the row every
        selected item had before the first pop; returns whether a pop
        raised. */
    method DeleteAsWritten(selected: seq<int>, confirmed: bool) returns (raised: bool)
      requires ValidSelection(selected, |actions|)
      modifies this
      ensures selected == [] || !confirmed ==> actions == old(actions) && !raised
      ensures selected != [] && confirmed ==> (actions, raised) == PopEach(old(actions), selected)
    {
      if selected == [] || !confirmed {
        return false;
      }
      var k := 0;
      while k < |selected|
        invariant 0 <= k <= |selected|
        invariant PopEach(actions, selected[k..]) == PopEach(old(actions), selected)
      {
        assert selected[k..][1..] == selected[k + 1..];
        var index := selected[k];
        if index >= 0 {
          if index >= |actions| {
            return true;
          }
          actions := Pop(actions, index);
        }
        k := k + 1;
      }
      assert selected[k..] == [];
      raised := false;
    }

    /** `_delete_step` as intended: after confirmation, exactly the
        selected steps are removed. */
    method DeleteSteps(selected: seq<int>, confirmed: bool)
      requires ValidSelection(selected, |actions|)
      modifies this
      ensures selected == [] || !confirmed ==> actions == old(actions)
      ensures selected != [] && confirmed ==> actions == WithoutRows(old(actions), selected)
    {
      if selected != [] && confirmed {
        actions := WithoutRows(actions, selected);
      }
    }

    /** The insertion loop of `_load_template`: the template's steps go in,
        in order, at the row of the first selected item, or at the top
        without a selection. */
    method LoadTemplate(selected: seq<int>, steps: seq<Object>)
      requires ValidSelection(selected, |actions|)
      modifies this
      ensures var p := if selected == [] then 0 else selected[0];
        actions == old(actions)[..p] + steps + old(actions)[p..]
    {
      var pos := if selected == [] then 0 else selected[0];
      ghost var p := pos;
      var k := 0;
      while k < |steps|
        invariant 0 <= k <= |steps| && pos == p + k
        invariant actions == old(actions)[..p] + steps[..k] + old(actions)[p..]
      {
        assert actions[..pos] == old(actions)[..p] + steps[..k];
        assert actions[pos..] == old(actions)[p..];
        assert steps[..k + 1] == steps[..k] + [steps[k]];
        actions := actions[..pos] + [steps[k]] + actions[pos..];
        k, pos := k + 1, pos + 1;
      }
      assert steps[..k] == steps;
    }

    /** The step loop of `_generate_script`: the blocks of the steps,
        numbered from 1, at the indentation of the settings; `None` when
        a step's code raises. */
    method ScriptSteps(useSpaces: bool, errorHandling: bool, logging: bool) returns (lines: Option<seq<string>>)
      ensures lines == StepsBlock(1, actions, StepIndent(useSpaces, errorHandling), logging)
    {
      var ind := StepIndent(useSpaces, errorHandling);
      var acc: seq<string> := [];
      var i := 0;
      assert actions[i..] == actions;
      PrefixedNothing(StepsBlock(1, actions, ind, logging));
      while i < |actions|
        invariant 0 <= i <= |actions|
        invariant StepsBlock(1, actions, ind, logging) == Prefixed(acc, StepsBlock(i + 1, actions[i..], ind, logging))
      {
        assert actions[i..][0] == actions[i] && actions[i..][1..] == actions[i + 1..];
        StepsBlockCons(i + 1, actions[i..], ind, logging, acc);
        var block := StepBlock(i + 1, actions[i], ind, logging);
        if block.None? {
          return None;
        }
        acc := acc + block.value;
        i := i + 1;
      }
      assert actions[i..] == [] && acc + [] == acc;
      lines := Some(acc);
    }
  }

  /** `acc` followed by the lines of `r`, when there are any. */
  function Prefixed(acc: seq<string>, r: Option<seq<string>>): Option<seq<string>> {
    match r
    case None => None
    case Some(x) => Some(acc + x)
  }

  lemma PrefixedNothing(r: Option<seq<string>>)
    ensures Prefixed([], r) == r
  {
    if r.Some? {
      assert [] + r.value == r.value;
    }
  }

  /** The block of the first step, then those of the others. */
  lemma StepsBlockCons(first: nat, actions: seq<Object>, ind: string, logging: bool, acc: seq<string>)
    requires actions != []
    ensures Prefixed(acc, StepsBlock(first, actions, ind, logging)) ==
      match StepBlock(first, actions[0], ind, logging)
      case None => None
      case Some(b) => Prefixed(acc + b, StepsBlock(first + 1, actions[1..], ind, logging))
  {
    match StepBlock(first, actions[0], ind, logging)
    case None =>
    case Some(b) =>
      match StepsBlock(first + 1, actions[1..], ind, logging)
      case None =>
      case Some(rest) => assert acc + (b + rest) == acc + b + rest;
  }

  /* ------------------------------------------------------ code per step */

  /** `s * n` */
  function Repeat(s: string, n: nat): (r: string)
    ensures |r| == n * |s|
  {
    if n == 0 then "" else s + Repeat(s, n - 1)
  }

  lemma {:induction false} RepeatChar(s: string, n: nat, c: char)
    requires forall i :: 0 <= i < |s| ==> s[i] == c
    ensures forall i :: 0 <= i < |Repeat(s, n)| ==> Repeat(s, n)[i] == c
  {
    if n > 0 {
      RepeatChar(s, n - 1, c);
    }
  }

  /** `indent * indent_level`: four spaces or a tab per level, three levels
      inside the error handler's `try:` and two without it. */
  function StepIndent(useSpaces: bool, errorHandling: bool): string {
    Repeat(if useSpaces then "    " else "\t", if errorHandling then 3 else 2)
  }

  lemma StepIndentShape(useSpaces: bool, errorHandling: bool)
    ensures var ind := StepIndent(useSpaces, errorHandling);
      var level := if errorHandling then 3 else 2;
      && |ind| == (if useSpaces then 4 * level else level)
      && forall i :: 0 <= i < |ind| ==> ind[i] == if useSpaces then ' ' else '\t'
  {
    RepeatChar(if useSpaces then "    " else "\t", if errorHandling then 3 else 2, if useSpaces then ' ' else '\t');
  }

  /** `action.get('type', '').lower()`; `None` when the type is not a
      string, on which `lower` raises. */
  function StepType(action: Object): Option<string> {
    match GetOr(action, "type", Str(""))
    case Str(s) => Some(Text.Lower(s))
    case _ => None
  }

  /** A value divided by 1000: integers and booleans; `None` for any other
      value, on which the division raises. */
  function Millis(v: Value): Option<int> {
    match v
    case Int(i) => Some(i)
    case Bool(b) => Some(if b then 1 else 0)
    case _ => None
  }

  /** The power of ten that a fraction of `digits` digits is scaled by to
      give milliseconds. */
  function Scale(digits: nat): nat {
    if digits == 1 then 100 else if digits == 2 then 10 else 1
  }

  /** The digits after the point of `r / 1000`, without trailing zeros but
      at least one. */
  function Fraction(r: nat): (f: string)
    requires r < 1000
    ensures 1 <= |f| <= 3 && forall i :: 0 <= i < |f| ==> Text.IsDigit(f[i])
    ensures f == "0" || f[|f| - 1] != '0'
    ensures Text.ParseDecimal(f) * Scale(|f|) == r
  {
    var d1, d2, d3 := Text.DigitChar(r / 100), Text.DigitChar(r / 10 % 10), Text.DigitChar(r % 10);
    ParseDigits(r / 100, r / 10 % 10, r % 10);
    if r == 0 then "0"
    else if r % 100 == 0 then [d1]
    else if r % 10 == 0 then
      assert [d1, d2][..1] == [d1];
      assert r == r / 100 * 100 + r / 10 % 10 * 10;
      [d1, d2]
    else
      assert [d1, d2, d3][..2] == [d1, d2] && [d1, d2][..1] == [d1];
      assert r == r / 100 * 100 + r / 10 % 10 * 10 + r % 10;
      [d1, d2, d3]
  }

  lemma ParseDigits(x: nat, y: nat, z: nat)
    requires x < 10 && y < 10 && z < 10
    ensures var a, b, c := Text.DigitChar(x), Text.DigitChar(y), Text.DigitChar(z);
      && Text.ParseDecimal([a]) == x
      && Text.ParseDecimal([a, b]) == 10 * x + y
      && Text.ParseDecimal([a, b, c]) == 100 * x + 10 * y + z
  {
    var a, b, c := Text.DigitChar(x), Text.DigitChar(y), Text.DigitChar(z);
    assert [a][..0] == [];
    assert [a, b][..1] == [a];
    assert [a, b, c][..2] == [a, b];
  }

  /** `str(m / 1000)` for `m >= 0`: the seconds in decimal, with a point
      and no trailing zeros after it. */
  function Unsigned(m: nat): (s: string)
    ensures |s| > 0 && Text.IsDigit(s[0])
  {
    Text.NatToString(m / 1000) + "." + Fraction(m % 1000)
  }

  /** `str(ms / 1000)` */
  function Seconds(ms: int): string {
    if ms < 0 then "-" + Unsigned(-ms) else Unsigned(ms)
  }

  predicate AllDigits(s: string) {
    forall i :: 0 <= i < |s| ==> Text.IsDigit(s[i])
  }

  /** Reads a non-negative number of seconds with up to three decimals
      back as milliseconds. */
  function ReadUnsigned(s: string): Option<int> {
    match Text.SplitFirst(s, '.')
    case None => None
    case Some(p) =>
      if p.0 != [] && AllDigits(p.0) && AllDigits(p.1) && 1 <= |p.1| <= 3 then
        Some(Text.ParseDecimal(p.0) * 1000 + Text.ParseDecimal(p.1) * Scale(|p.1|))
      else None
  }

  /** Reads a number of seconds with up to three decimals, and an optional
      minus sign, back as milliseconds. */
  function ReadSeconds(s: string): Option<int> {
    if |s| > 0 && s[0] == '-' then
      match ReadUnsigned(s[1..])
      case None => None
      case Some(v) => Some(-v)
    else
      match ReadUnsigned(s)
      case None => None
      case Some(v) => Some(v)
  }

  lemma UnsignedReadBack(m: nat)
    ensures ReadUnsigned(Unsigned(m)) == Some(m)
  {
    var w, f := Text.NatToString(m / 1000), Fraction(m % 1000);
    assert '.' !in w by {
      forall i | 0 <= i < |w| ensures w[i] != '.' {
        assert Text.IsDigit(w[i]);
      }
    }
    Text.SplitFirstAt(w, '.', f);
    assert Unsigned(m) == w + ['.'] + f;
    Text.ParseNatToString(m / 1000);
  }

  /** A minus sign before a number that has none is read as a negation. */
  lemma ReadNegative(u: string)
    requires |u| > 0 && u[0] != '-'
    ensures ReadSeconds("-" + u) == match ReadUnsigned(u) case None => None case Some(v) => Some(-v)
  {
    assert ("-" + u)[1..] == u;
  }

  /** A number without a sign is read as it is. */
  lemma ReadNonNegative(u: string)
    requires |u| > 0 && u[0] != '-'
    ensures ReadSeconds(u) == ReadUnsigned(u)
  {
  }

  /** A wait of no milliseconds or more reads back, */
  lemma SecondsNonNegative(m: nat)
    ensures ReadSeconds(Seconds(m)) == Some(m as int)
  {
    var u := Unsigned(m);
    assert Seconds(m) == u;
    UnsignedReadBack(m);
    ReadNonNegative(u);
  }

  /** and for a negative one. */
  lemma SecondsNegative(m: nat)
    requires m > 0
    ensures ReadSeconds(Seconds(-(m as int))) == Some(-(m as int))
  {
    var u := Unsigned(m);
    assert Seconds(-(m as int)) == "-" + u;
    UnsignedReadBack(m);
    ReadNegative(u);
  }

  /** The seconds written into a sleep are exactly the milliseconds
      divided by 1000. */
  lemma SecondsReadBack(ms: int)
    ensures ReadSeconds(Seconds(ms)) == Some(ms)
  {
    if ms < 0 {
      SecondsNegative(-ms);
    } else {
      SecondsNonNegative(ms);
    }
  }

  /** `time.sleep(ms / 1000)` */
  function SleepCall(ms: int): string {
    "time.sleep(" + Seconds(ms) + ")"
  }

  /** `str(params.get(key, default))` */
  function Param(params: Object, key: string, default: int): string {
    Render(GetOr(params, key, Int(default)))
  }

  /** The element lookup that opens the click, input and assert code. */
  function Locate(action: Object, ind: string, condition: string): seq<string> {
    var locator, target := Render(GetOr(action, "by", Str("id"))), Render(Get(action, "target"));
    ["element = self.wait.until(", ind + "EC." + condition + "((" + locator + ", " + target + "))", ")"]
  }

  /** The lines of `_generate_step_code` for a step of type `t`, before
      the step's indentation; `None` when building them raises. */
  function TypeLines(t: string, action: Object, ind: string): Option<seq<string>> {
    if t == "click" then
      Some(Locate(action, ind, "element_to_be_clickable") + ["element.click()"])
    else if t == "input" then
      Some(Locate(action, ind, "presence_of_element_located") +
           ["element.clear()", "element.send_keys(" + Render(GetOr(action, "text", Str(""))) + ")"])
    else if t == "swipe" then
      match GetOr(action, "params", Dict([]))
      case Dict(p) =>
        Some(["self.driver.swipe(",
              ind + "start_x=" + Param(p, "start_x", 0) + ",",
              ind + "start_y=" + Param(p, "start_y", 0) + ",",
              ind + "end_x=" + Param(p, "end_x", 0) + ",",
              ind + "end_y=" + Param(p, "end_y", 0) + ",",
              ind + "duration=" + Param(p, "duration", 500),
              ")"])
      case _ => None
    else if t == "wait" then
      match Millis(GetOr(action, "wait", Int(1000)))
      case Some(ms) => Some([SleepCall(ms)])
      case None => None
    else if t == "assert" then
      Some(Locate(action, ind, "presence_of_element_located") +
           ["assert element.text == " + Render(GetOr(action, "expected", Str("")))])
    else Some([])
  }

  /** The number of lines the code of each step type has. */
  function CodeLength(t: string): nat {
    if t == "click" then 4
    else if t == "input" then 5
    else if t == "swipe" then 7
    else if t == "wait" then 1
    else if t == "assert" then 4
    else 0
  }

  /** When `_generate_step_code` does not raise: the type is a string, a
      swipe's params are a dict, and a wait step's wait can be divided. */
  predicate CodeDefined(action: Object) {
    && StepType(action).Some?
    && (StepType(action).value == "swipe" ==> GetOr(action, "params", Dict([])).Dict?)
    && (StepType(action).value == "wait" ==> Millis(GetOr(action, "wait", Int(1000))).Some?)
  }

  /** `_generate_step_code`: click 4 lines, input 5, swipe 7, wait 1,
      assert 4 and any other type none, each at the step's indentation. */
  function StepCode(action: Object, ind: string): (r: Option<seq<string>>)
    ensures r.Some? <==> CodeDefined(action)
    ensures r.Some? ==> |r.value| == CodeLength(StepType(action).value)
    ensures r.Some? ==> forall j :: 0 <= j < |r.value| ==> Text.StartsWith(r.value[j], ind)
  {
    match StepType(action)
    case None => None
    case Some(t) =>
      match TypeLines(t, action, ind)
      case None => None
      case Some(lines) =>
        Text.IndentStarts(lines, ind);
        Some(Text.Indent(lines, ind))
  }

  /** When the sleep after a step does not raise: its wait is falsy or can
      be divided. */
  predicate SleepDefined(action: Object) {
    !Truthy(Get(action, "wait")) || Millis(Get(action, "wait")).Some?
  }

  /** The sleep after a step, only when `action.get('wait')` is truthy. */
  function SleepLine(action: Object, ind: string): (r: Option<seq<string>>)
    ensures r.Some? <==> SleepDefined(action)
    ensures r.Some? ==> |r.value| == (if Truthy(Get(action, "wait")) then 1 else 0)
    ensures r.Some? ==> forall j :: 0 <= j < |r.value| ==> Text.StartsWith(r.value[j], ind)
  {
    if !Truthy(Get(action, "wait")) then Some([])
    else match Millis(Get(action, "wait"))
      case None => None
      case Some(ms) =>
        Text.StartsWithAppend(ind, SleepCall(ms));
        Some([ind + SleepCall(ms)])
  }

  /** The comment that opens step `i`. */
  function CommentLine(i: nat, action: Object): string {
    "# 步骤 " + Text.NatToString(i) + ": " + Render(GetOr(action, "description", Str("")))
  }

  /** The log line of step `i`. */
  function LogLine(i: nat, action: Object): string {
    "logger.info('执行步骤 " + Text.NatToString(i) + ": " + Render(Get(action, "type")) + " - " +
    Render(Get(action, "target")) + "')"
  }

  /** The block of step `i`: its comment, its log line when logging is on,
      its code, its sleep, and a blank line; every line but the blank one
      is at the step's indentation. */
  function StepBlock(i: nat, action: Object, ind: string, logging: bool): (r: Option<seq<string>>)
    ensures r.Some? <==> CodeDefined(action) && SleepDefined(action)
    ensures r.Some? ==>
      |r.value| == 2 + (if logging then 1 else 0) + CodeLength(StepType(action).value) +
                   (if Truthy(Get(action, "wait")) then 1 else 0)
    ensures r.Some? ==> r.value[|r.value| - 1] == ""
    ensures r.Some? ==> forall j :: 0 <= j < |r.value| - 1 ==> Text.StartsWith(r.value[j], ind)
  {
    match StepCode(action, ind)
    case None => None
    case Some(code) =>
      match SleepLine(action, ind)
      case None => None
      case Some(sleep) =>
        var head := [ind + CommentLine(i, action)] + (if logging then [ind + LogLine(i, action)] else []);
        Text.IndentStarts([CommentLine(i, action), LogLine(i, action)], ind);
        assert forall j :: 0 <= j < |head| ==> Text.StartsWith(head[j], ind);
        Some(head + code + sleep + [""])
  }

  /** The blocks of the steps in order, numbered from `first`; `None`
      when one of them raises. */
  function StepsBlock(first: nat, actions: seq<Object>, ind: string, logging: bool): Option<seq<string>>
    decreases |actions|
  {
    if actions == [] then Some([])
    else
      match StepBlock(first, actions[0], ind, logging)
      case None => None
      case Some(b) => Prefixed(b, StepsBlock(first + 1, actions[1..], ind, logging))
  }

  /** The step section is generated exactly when no step's code or sleep
      raises. */
  lemma {:induction false} StepsBlockDefined(first: nat, actions: seq<Object>, ind: string, logging: bool)
    ensures StepsBlock(first, actions, ind, logging).Some? <==>
      forall k :: 0 <= k < |actions| ==> CodeDefined(actions[k]) && SleepDefined(actions[k])
    decreases |actions|
  {
    if actions != [] {
      StepsBlockDefined(first + 1, actions[1..], ind, logging);
      assert forall k :: 1 <= k < |actions| ==> actions[k] == actions[1..][k - 1];
    }
  }

  /** Every line of the step section is blank or at the step indentation,
      and there is one blank line per step. */
  lemma {:induction false} StepsBlockLines(first: nat, actions: seq<Object>, ind: string, logging: bool)
    requires StepsBlock(first, actions, ind, logging).Some?
    ensures var lines := StepsBlock(first, actions, ind, logging).value;
      forall j :: 0 <= j < |lines| ==> lines[j] == "" || Text.StartsWith(lines[j], ind)
    ensures |StepsBlock(first, actions, ind, logging).value| >= (if logging then 3 else 2) * |actions|
    decreases |actions|
  {
    if actions != [] {
      StepsBlockLines(first + 1, actions[1..], ind, logging);
      var b := StepBlock(first, actions[0], ind, logging).value;
      var rest := StepsBlock(first + 1, actions[1..], ind, logging).value;
      assert StepsBlock(first, actions, ind, logging).value == b + rest;
    }
  }

  /** The default step generates a click and a one-second sleep. */
  lemma NewStepCode(ind: string)
    ensures StepCode(NewStep(), ind).Some? && |StepCode(NewStep(), ind).value| == 4
    ensures SleepLine(NewStep(), ind) == Some([ind + "time.sleep(1.0)"])
  {
    NewStepSpec();
    assert Text.Lower("click") == "click";
    assert Text.NatToString(1) == "1";
    assert Fraction(0) == "0";
    assert Seconds(1000) == Unsigned(1000) == "1" + "." + "0" == "1.0";
    assert SleepCall(1000) == "time.sleep(1.0)";
  }
}
