/**
 * The option editor of src/screens/AdminScreen.tsx: the add form's
 * validation and the list operations (add, delete, clear, set a percentage,
 * distribute evenly, save an edit, pick a colour). Each operation builds a
 * new list from the old one; the screen then stores it and hands it to
 * `saveWheelOptions`, which the Storage module models.
 *
 * `parseFloat` is a parameter: `None` stands for NaN. `Date.now()`, which
 * supplies new ids, is a parameter too.
 */
module Admin {

  import opened Wrappers
  import opened Types
  import opened JsText
  import Colors

  // ---------------------------------------------------------------------
  // The add form
  // ---------------------------------------------------------------------

  /** The two text fields of the add form. */
  datatype AddForm = AddForm(text: string, percentage: string)

  /** What pressing "add" does: an alert for blank text, an alert for a
      percentage outside (0, 100], or a submission to `addOption`. */
  datatype AddResult = BlankText | BadPercentage | Submitted(text: string, percentage: real)

  const DEFAULT_PERCENTAGE_TEXT: string := "20"

  /** The form as it is reset after a submission. */
  function ResetForm(): AddForm
  {
    AddForm("", DEFAULT_PERCENTAGE_TEXT)
  }

  /** `handleAdd`; `parsed` is `parseFloat(form.percentage)`. The text is
      submitted untrimmed: `addOption` trims it. */
  function HandleAdd(form: AddForm, parsed: Option<real>): (out: (AddForm, AddResult))
    ensures out.1 == BlankText <==> Trim(form.text) == []
    ensures out.1 == BadPercentage <==>
      Trim(form.text) != [] && (parsed.None? || parsed.value <= 0.0 || parsed.value > 100.0)
    ensures out.1.Submitted? ==>
      && out.1.text == form.text
      && parsed == Some(out.1.percentage)
      && 0.0 < out.1.percentage <= 100.0
      && out.0 == ResetForm()
    ensures !out.1.Submitted? ==> out.0 == form
  {
    if Trim(form.text) == [] then (form, BlankText)
    else if parsed.None? || parsed.value <= 0.0 || parsed.value > 100.0 then (form, BadPercentage)
    else (ResetForm(), Submitted(form.text, parsed.value))
  }

  // ---------------------------------------------------------------------
  // List operations
  // ---------------------------------------------------------------------

  /** `addOption`: appends one option with the trimmed text, the given
      percentage and the palette colour for its position. */
  function AddOption(options: seq<WheelOption>, text: string, percentage: real, id: string): (r: seq<WheelOption>)
    ensures |r| == |options| + 1 && r[..|options|] == options
    ensures r[|options|].id == id && r[|options|].text == Trim(text)
    ensures r[|options|].percentage == percentage
    ensures r[|options|].color == Colors.GetColorByIndex(|options|)
  {
    options + [WheelOption(id, Trim(text), percentage, Colors.GetColorByIndex(|options|))]
  }

  /** An option that passed the add form has visible text and a percentage
      in (0, 100], and its text carries no surrounding whitespace. */
  lemma SubmittedOptionIsValid(options: seq<WheelOption>, form: AddForm, parsed: Option<real>, id: string)
    requires HandleAdd(form, parsed).1.Submitted?
    ensures var added := AddOption(options, form.text, parsed.value, id)[|options|];
      && added.text != []
      && !IsJsWhitespace(added.text[0]) && !IsJsWhitespace(added.text[|added.text| - 1])
      && 0.0 < added.percentage <= 100.0
  {
    var t := Trim(form.text);
    TrimEmptyIffBlank(form.text);
    assert t != [];
    assert !IsJsWhitespace(t[0]) && !IsJsWhitespace(t[|t| - 1]);
    AddedOptionFields(options, form.text, parsed.value, id);
  }

  /** The appended option's text is the trimmed input and its weight the
      submitted percentage. */
  lemma AddedOptionFields(options: seq<WheelOption>, text: string, percentage: real, id: string)
    ensures AddOption(options, text, percentage, id)[|options|].text == Trim(text)
    ensures AddOption(options, text, percentage, id)[|options|].percentage == percentage
  {
  }

  /** `deleteOption`: keeps, in order, the options whose id differs. */
  function DeleteOption(options: seq<WheelOption>, id: string): (r: seq<WheelOption>)
    ensures |r| <= |options|
    ensures forall x :: x in r ==> x in options && x.id != id
    ensures forall x :: x in options && x.id != id ==> x in r
  {
    if options == [] then []
    else if options[0].id == id then DeleteOption(options[1..], id)
    else [options[0]] + DeleteOption(options[1..], id)
  }

  /** Deleting from a concatenation deletes from each part: the survivors
      keep their relative order. */
  lemma {:induction false} DeleteDistributes(a: seq<WheelOption>, b: seq<WheelOption>, id: string)
    ensures DeleteOption(a + b, id) == DeleteOption(a, id) + DeleteOption(b, id)
  {
    if a != [] {
      assert (a + b)[0] == a[0];
      assert (a + b)[1..] == a[1..] + b;
      DeleteDistributes(a[1..], b, id);
      if a[0].id != id {
        assert [a[0]] + (DeleteOption(a[1..], id) + DeleteOption(b, id))
          == ([a[0]] + DeleteOption(a[1..], id)) + DeleteOption(b, id);
      }
    } else {
      assert a + b == b;
    }
  }

  /** Deleting an id no option has changes nothing. */
  lemma {:induction false} DeleteAbsent(options: seq<WheelOption>, id: string)
    requires forall i :: 0 <= i < |options| ==> options[i].id != id
    ensures DeleteOption(options, id) == options
  {
    if options != [] {
      DeleteAbsent(options[1..], id);
    }
  }

  /** Deleting twice is deleting once. */
  lemma DeleteIdempotent(options: seq<WheelOption>, id: string)
    ensures DeleteOption(DeleteOption(options, id), id) == DeleteOption(options, id)
  {
    var r := DeleteOption(options, id);
    forall i | 0 <= i < |r|
      ensures r[i].id != id
    {
      assert r[i] in r;
    }
    DeleteAbsent(r, id);
  }

  /** Adding an option under an id not yet in use and then deleting that id
      gives back the list as it was. */
  lemma AddThenDelete(options: seq<WheelOption>, text: string, percentage: real, id: string)
    requires forall i :: 0 <= i < |options| ==> options[i].id != id
    ensures DeleteOption(AddOption(options, text, percentage, id), id) == options
  {
    var added := [WheelOption(id, Trim(text), percentage, Colors.GetColorByIndex(|options|))];
    DeleteDistributes(options, added, id);
    DeleteAbsent(options, id);
    assert added[1..] == [];
  }

  /** `clearAllOptions`. */
  function ClearAllOptions(options: seq<WheelOption>): (r: seq<WheelOption>)
    ensures r == []
  {
    []
  }

  /** Ids, texts and colours of `a` and `b` agree position by position, and
      every option whose id is not `id` is untouched. */
  predicate OnlyIdTouched(a: seq<WheelOption>, b: seq<WheelOption>, id: string)
  {
    && |a| == |b|
    && (forall i :: 0 <= i < |a| ==> b[i].id == a[i].id)
    && (forall i :: 0 <= i < |a| && a[i].id != id ==> b[i] == a[i])
  }

  /** The percentage `updatePercentage` stores for `parseFloat`'s result. */
  function ParsedOrZero(parsed: Option<real>): real
  {
    parsed.GetOr(0.0)
  }

  /** `updatePercentage`: every option with the id gets the parsed
      percentage, or 0 when the input does not parse. */
  function UpdatePercentage(options: seq<WheelOption>, id: string, parsed: Option<real>): (r: seq<WheelOption>)
    ensures OnlyIdTouched(options, r, id)
    ensures forall i :: 0 <= i < |r| && options[i].id == id ==>
      r[i] == options[i].(percentage := ParsedOrZero(parsed))
  {
    seq(|options|, i requires 0 <= i < |options| =>
      if options[i].id == id then options[i].(percentage := ParsedOrZero(parsed)) else options[i])
  }

  /** Changing one option's weight changes the total by the difference. */
  lemma {:induction false} SumReplaceOne(a: seq<WheelOption>, b: seq<WheelOption>, k: nat)
    requires |a| == |b| && k < |a|
    requires forall i :: 0 <= i < |a| && i != k ==> b[i].percentage == a[i].percentage
    ensures Sum(b) == Sum(a) - a[k].percentage + b[k].percentage
  {
    var n := |a| - 1;
    if k == n {
      SumSameWeights(a[..n], b[..n]);
    } else {
      SumReplaceOne(a[..n], b[..n], k);
    }
  }

  /** Lists with the same weights have the same total. */
  lemma {:induction false} SumSameWeights(a: seq<WheelOption>, b: seq<WheelOption>)
    requires |a| == |b|
    requires forall i :: 0 <= i < |a| ==> b[i].percentage == a[i].percentage
    ensures Sum(b) == Sum(a)
  {
    if a != [] {
      SumSameWeights(a[..|a| - 1], b[..|b| - 1]);
    }
  }

  /** With unique ids, setting the percentage of the option at `k` moves
      the total by exactly the change of that one weight. */
  lemma UpdatePercentageTotal(options: seq<WheelOption>, k: nat, parsed: Option<real>)
    requires UniqueIds(options) && k < |options|
    ensures Sum(UpdatePercentage(options, options[k].id, parsed))
      == Sum(options) - options[k].percentage + ParsedOrZero(parsed)
  {
    SumReplaceOne(options, UpdatePercentage(options, options[k].id, parsed), k);
  }

  // ---------------------------------------------------------------------
  // Even distribution
  // ---------------------------------------------------------------------

  /** `+(100 / n).toFixed(2)` in hundredths: 10000 / n rounded half up,
      i.e. floor((20000 + n) / (2n)). */
  function EqualShareHundredths(n: nat): (h: nat)
    requires n > 0
    ensures 2 * n * h <= 20000 + n < 2 * n * (h + 1)
  {
    (20000 + n) / (2 * n)
  }

  /** The even share for `n` options, in percent. */
  function EqualShare(n: nat): real
    requires n > 0
  {
    EqualShareHundredths(n) as real / 100.0
  }

  /** `autoDistribute`: no change for an empty list, otherwise every option
      gets the same share. */
  function AutoDistribute(options: seq<WheelOption>): (r: seq<WheelOption>)
    ensures |r| == |options|
    ensures forall i :: 0 <= i < |r| ==>
      r[i] == options[i].(percentage := EqualShare(|options|))
  {
    if |options| == 0 then options
    else seq(|options|, i requires 0 <= i < |options| => options[i].(percentage := EqualShare(|options|)))
  }

  /** The rounded share differs from 100 / n by at most half a hundredth. */
  lemma EqualShareError(n: nat)
    requires n > 0
    ensures -0.005 < EqualShare(n) - 100.0 / (n as real) <= 0.005
  {
    ShareErrorFromBounds(n, EqualShareHundredths(n));
  }

  /** Any `h` hundredths meeting the rounding bounds of
      `EqualShareHundredths` lie within half a hundredth of 100 / n. */
  lemma ShareErrorFromBounds(n: nat, h: nat)
    requires n > 0
    requires 2 * n * h <= 20000 + n < 2 * n * (h + 1)
    ensures -0.005 < (h as real) / 100.0 - 100.0 / (n as real) <= 0.005
  {
    var m := n as real;
    HundredthsAsReal(n, h);
    var e := (h as real) / 100.0 - 100.0 / m;
    ScaledShareError(m, h as real, e);
    HalfHundredth(m, m * (h as real) - 10000.0, m * e);
    ScaledBack(m, e);
  }

  /** A distance from 10000 of less than `m / 2` is, in hundredths, less
      than `m` half-hundredths. */
  lemma HalfHundredth(m: real, x: real, y: real)
    requires -m < 2.0 * x <= m
    requires y == x / 100.0
    ensures -0.005 * m < y <= 0.005 * m
  {
  }

  /** The rounding bounds on the hundredths, read over the reals: `m * h`
      is within `m / 2` of 10000. */
  lemma HundredthsAsReal(n: nat, h: nat)
    requires n > 0
    requires 2 * n * h <= 20000 + n < 2 * n * (h + 1)
    ensures -(n as real) < 2.0 * ((n as real) * (h as real) - 10000.0) <= n as real
  {
    var p := n * h;
    assert p as real == (n as real) * (h as real);
    assert 2 * p <= 20000 + n < 2 * p + 2 * n;
  }

  /** `m` times the error of `h` hundredths against `100 / m`. */
  lemma ScaledShareError(m: real, h: real, e: real)
    requires m > 0.0
    requires e == h / 100.0 - 100.0 / m
    ensures m * e == (m * h - 10000.0) / 100.0
  {
    assert m * (100.0 / m) == 100.0;
  }

  /** Dividing bounds on `m * e` by a positive `m`. */
  lemma ScaledBack(m: real, e: real)
    requires m > 0.0
    requires -0.005 * m < m * e <= 0.005 * m
    ensures -0.005 < e <= 0.005
  {
  }

  /** The even share is positive exactly up to 20000 options; beyond that
      `toFixed(2)` rounds it to 0. */
  lemma EqualSharePositive(n: nat)
    requires n > 0
    ensures EqualShare(n) > 0.0 <==> n <= 20000
  {
    var h := EqualShareHundredths(n);
    assert 2 * n * (h + 1) == 2 * n * h + 2 * n;
    if n <= 20000 {
      assert 0 < 2 * n * h;
    } else {
      assert 2 * n * h < 2 * n;
    }
  }

  /** Sum of `n` equal weights. */
  lemma {:induction false} SumOfEqualWeights(s: seq<WheelOption>, p: real)
    requires forall i :: 0 <= i < |s| ==> s[i].percentage == p
    ensures Sum(s) == |s| as real * p
  {
    if s != [] {
      SumOfEqualWeights(s[..|s| - 1], p);
    }
  }

  /** `n` shares each within half a hundredth of 100 / n add up to within
      `n` half-hundredths of 100. */
  lemma ScaledError(m: real, share: real, total: real)
    requires m > 0.0
    requires -0.005 < share - 100.0 / m <= 0.005
    requires total == m * share
    ensures -0.005 * m < total - 100.0 <= 0.005 * m
  {
    var e := share - 100.0 / m;
    assert m * share - 100.0 == m * e;
    assert -0.005 * m < m * e <= 0.005 * m;
  }

  /** After distributing, the weights add up to 100 give or take the
      rounding: at most half a hundredth per option. */
  lemma AutoDistributeTotal(options: seq<WheelOption>)
    requires |options| > 0
    ensures var n := |options| as real;
      -0.005 * n < Sum(AutoDistribute(options)) - 100.0 <= 0.005 * n
  {
    var n := |options|;
    var share := EqualShare(n);
    var r := AutoDistribute(options);
    assert |r| == n && forall i :: 0 <= i < |r| ==> r[i].percentage == share;
    SumOfEqualWeights(r, share);
    EqualShareError(n);
    ScaledError(n as real, share, Sum(r));
  }

  // ---------------------------------------------------------------------
  // The editor screen's state: inline edit and colour picker
  // ---------------------------------------------------------------------

  /** The option list and the edit fields of the screen. `None` is `null`. */
  datatype AdminState = AdminState(
    options: seq<WheelOption>,
    editingId: Option<string>,
    editText: string,
    editPercentage: string,
    colorModalVisible: bool,
    colorEditId: Option<string>)

  /** The edit fields after `cancelEdit` or a saved edit. */
  predicate EditCleared(s: AdminState)
  {
    s.editingId.None? && s.editText == [] && s.editPercentage == []
  }

  /** `cancelEdit`: leaves the options as they are and clears the edit. */
  function CancelEdit(s: AdminState): (t: AdminState)
    ensures EditCleared(t)
    ensures t.options == s.options
    ensures t.colorModalVisible == s.colorModalVisible && t.colorEditId == s.colorEditId
  {
    s.(editingId := None, editText := [], editPercentage := [])
  }

  /** `saveEdit`: every option with the id gets the trimmed edit text and the
      parsed percentage `parsed`; then the edit is cleared. */
  function SaveEdit(s: AdminState, id: string, parsed: real): (t: AdminState)
    ensures OnlyIdTouched(s.options, t.options, id)
    ensures forall i :: 0 <= i < |t.options| && s.options[i].id == id ==>
      t.options[i] == s.options[i].(text := Trim(s.editText), percentage := parsed)
    ensures EditCleared(t)
    ensures t.colorModalVisible == s.colorModalVisible && t.colorEditId == s.colorEditId
  {
    var edited := seq(|s.options|, i requires 0 <= i < |s.options| =>
      if s.options[i].id == id then s.options[i].(text := Trim(s.editText), percentage := parsed)
      else s.options[i]);
    CancelEdit(s.(options := edited))
  }

  /** `openColorModal`. */
  function OpenColorModal(s: AdminState, id: string): (t: AdminState)
    ensures t.colorEditId == Some(id) && t.colorModalVisible
    ensures t.options == s.options
    ensures t.editingId == s.editingId && t.editText == s.editText && t.editPercentage == s.editPercentage
  {
    s.(colorEditId := Some(id), colorModalVisible := true)
  }

  /** JavaScript truthiness of the colour-picker target: `null` and the
      empty string are falsy. */
  predicate HasColorTarget(s: AdminState)
  {
    s.colorEditId.Some? && s.colorEditId.value != []
  }

  /** `selectColor`: without a target nothing happens; otherwise the
      options with the target id take the colour and the picker closes. */
  function SelectColor(s: AdminState, color: string): (t: AdminState)
    ensures !HasColorTarget(s) ==> t == s
    ensures HasColorTarget(s) ==>
      && OnlyIdTouched(s.options, t.options, s.colorEditId.value)
      && (forall i :: 0 <= i < |t.options| && s.options[i].id == s.colorEditId.value ==>
            t.options[i] == s.options[i].(color := color))
      && !t.colorModalVisible && t.colorEditId.None?
      && t.editingId == s.editingId && t.editText == s.editText && t.editPercentage == s.editPercentage
  {
    if !HasColorTarget(s) then s
    else
      var target := s.colorEditId.value;
      var recoloured := seq(|s.options|, i requires 0 <= i < |s.options| =>
        if s.options[i].id == target then s.options[i].(color := color) else s.options[i]);
      s.(options := recoloured, colorModalVisible := false, colorEditId := None)
  }

  /** Picking a colour leaves every weight, and so every winning chance,
      as it was. */
  lemma SelectColorKeepsWeights(s: AdminState, color: string)
    ensures Sum(SelectColor(s, color).options) == Sum(s.options)
  {
    var t := SelectColor(s, color);
    SumSameWeights(s.options, t.options);
  }
}
