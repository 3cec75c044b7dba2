/** gui/tabs/classification_dialog.py: the dialog that shows one image and
    one button per class option, labelled in Russian, and remembers the
    English class of the button the user clicks. Widgets and the picture are
    not modelled. */
module ClassificationDialog {
  import opened Base
  import FileOperations

  /** `self.class_names_mapping`, in its insertion order. */
  const ClassNamesMapping: seq<(string, string)> :=
    [("roedeer", "Косуля"), ("muskdeer", "Кабарга"), ("deer", "Олень")]

  predicate IsKey(pairs: seq<(string, string)>, key: string)
  {
    exists i :: 0 <= i < |pairs| && pairs[i].0 == key
  }

  predicate IsValue(pairs: seq<(string, string)>, value: string)
  {
    exists i :: 0 <= i < |pairs| && pairs[i].1 == value
  }

  /** No two entries share a value (keys of a dict are distinct anyway). */
  predicate Injective(pairs: seq<(string, string)>)
  {
    && (forall i, j :: 0 <= i < j < |pairs| ==> pairs[i].0 != pairs[j].0)
    && (forall i, j :: 0 <= i < j < |pairs| ==> pairs[i].1 != pairs[j].1)
  }

  /** `mapping.get(key, default)`. */
  function GetOr(pairs: seq<(string, string)>, key: string, default: string): (r: string)
    ensures !IsKey(pairs, key) ==> r == default
    ensures forall i :: (0 <= i < |pairs| && pairs[i].0 == key
              && (forall j :: 0 <= j < i ==> pairs[j].0 != key)) ==> r == pairs[i].1
  {
    if pairs == [] then default
    else if pairs[0].0 == key then pairs[0].1
    else
      var r := GetOr(pairs[1..], key, default);
      assert forall i :: 1 <= i < |pairs| ==> pairs[1..][i - 1] == pairs[i];
      r
  }

  /** `next((key for key, value in mapping.items() if value == text), text)`. */
  function KeyOfValue(pairs: seq<(string, string)>, text: string): (r: string)
    ensures !IsValue(pairs, text) ==> r == text
    ensures forall i :: (0 <= i < |pairs| && pairs[i].1 == text
              && (forall j :: 0 <= j < i ==> pairs[j].1 != text)) ==> r == pairs[i].0
  {
    if pairs == [] then text
    else if pairs[0].1 == text then pairs[0].0
    else
      var r := KeyOfValue(pairs[1..], text);
      assert forall i :: 1 <= i < |pairs| ==> pairs[1..][i - 1] == pairs[i];
      r
  }

  /** The text of the button for one class option. */
  function ButtonText(option: string): string
  {
    GetOr(ClassNamesMapping, option, option)
  }

  /** What `on_class_selected` stores for a button's text. */
  function SelectedClassFor(text: string): string
  {
    KeyOfValue(ClassNamesMapping, text)
  }

  /** For an injective mapping, looking a key's value up again gives the key. */
  lemma {:induction false} KeyOfValueOfKey(pairs: seq<(string, string)>, key: string)
    requires Injective(pairs) && IsKey(pairs, key)
    ensures KeyOfValue(pairs, GetOr(pairs, key, key)) == key
    decreases |pairs|
  {
    if pairs[0].0 != key {
      var k :| 0 <= k < |pairs| && pairs[k].0 == key;
      assert pairs[1..][k - 1] == pairs[k];
      KeyOfValueOfKey(pairs[1..], key);
      // the head's value differs from the key's value
      assert pairs[0].1 != pairs[k].1;
      GetOrFound(pairs[1..], key);
    }
  }

  lemma {:induction false} GetOrFound(pairs: seq<(string, string)>, key: string)
    requires IsKey(pairs, key) && Injective(pairs)
    ensures exists i :: 0 <= i < |pairs| && pairs[i].0 == key && GetOr(pairs, key, key) == pairs[i].1
  {
    var k :| 0 <= k < |pairs| && pairs[k].0 == key;
    assert forall j :: 0 <= j < k ==> pairs[j].0 != key;
  }

  lemma ClassNamesMappingInjective()
    ensures Injective(ClassNamesMapping)
  {
  }

  /** A button labelled from a mapped option selects that option again. */
  lemma ButtonRoundTrip(option: string)
    requires option in {"roedeer", "muskdeer", "deer"}
    ensures SelectedClassFor(ButtonText(option)) == option
  {
    ClassNamesMappingInjective();
    assert ClassNamesMapping[0].0 == "roedeer" && ClassNamesMapping[1].0 == "muskdeer"
      && ClassNamesMapping[2].0 == "deer";
    KeyOfValueOfKey(ClassNamesMapping, option);
  }

  /** An option outside the mapping is shown as is and selected as is,
      unless it coincides with one of the Russian names. */
  lemma UnmappedRoundTrip(option: string)
    requires !IsKey(ClassNamesMapping, option) && !IsValue(ClassNamesMapping, option)
    ensures ButtonText(option) == option && SelectedClassFor(ButtonText(option)) == option
  {
  }

  /** The export table translates labels with the same three names the
      dialog shows on its buttons. */
  lemma ExportTranslationAgrees(option: string)
    ensures FileOperations.Translate(option) == ButtonText(option)
  {
    if option == "roedeer" || option == "muskdeer" || option == "deer" {
      assert ClassNamesMapping[0].0 == "roedeer" && ClassNamesMapping[1].0 == "muskdeer"
        && ClassNamesMapping[2].0 == "deer";
    }
  }

  class Dialog {
    /** The texts of the class buttons, in the order of the options. */
    const buttons: seq<string>
    /** `self.selected_class`. */
    var selectedClass: Option<string>
    /** Whether the dialog has been closed with `accept()`. */
    var accepted: bool

    constructor (classOptions: seq<string>)
      ensures selectedClass == None && !accepted
      ensures |buttons| == |classOptions|
      ensures forall i :: 0 <= i < |classOptions| ==> buttons[i] == ButtonText(classOptions[i])
    {
      buttons := seq(|classOptions|, i requires 0 <= i < |classOptions| => ButtonText(classOptions[i]));
      selectedClass := None;
      accepted := false;
    }

    /** `on_class_selected` for the button at `index`. */
    method OnClassSelected(index: nat)
      requires index < |buttons|
      modifies this
      ensures selectedClass == Some(SelectedClassFor(buttons[index])) && accepted
    {
      selectedClass := Some(SelectedClassFor(buttons[index]));
      accepted := true;
    }
  }
}
