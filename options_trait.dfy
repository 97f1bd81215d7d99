/** The options widgets (select list, check boxes, radio buttons) of a
    dynamic entity reference field with a single target type: a reference
    is offered as the option key "target_type-target_id", the submitted key
    is split back into the two properties, and the options are built once
    per widget and cached. */
module DynamicEntityReferenceOptions {
  import opened Wrappers
  import opened Entities
  import opened Strings
  import I = DynamicEntityReferenceItem
  import L = FieldItemList

  // ---------------------------------------------------------------------
  // isApplicable()
  // ---------------------------------------------------------------------

  /** A map with exactly one key. */
  lemma SingleKey<V>(m: map<string, V>)
    ensures |m| == 1 <==> exists t :: m.Keys == {t}
  {
    if |m| == 1 {
      var t :| t in m.Keys;
      assert |m.Keys - {t}| == 0;
      assert m.Keys == {t};
    }
  }

  /** isApplicable(): the widget serves fields that can reference exactly
      one entity type. */
  function IsApplicable(content: map<string, string>, settings: I.StorageSettings): (r: bool)
    ensures r <==> exists t :: I.TargetTypes(content, settings).Keys == {t}
  {
    SingleKey(I.TargetTypes(content, settings));
    |I.TargetTypes(content, settings)| == 1
  }

  /** A field that includes just one existing content type is served. */
  lemma IncludingOneTypeIsApplicable(content: map<string, string>, t: string)
    requires t in content
    ensures IsApplicable(content, I.StorageSettings(false, Some({t})))
  {
    assert I.TargetTypes(content, I.StorageSettings(false, Some({t}))).Keys == {t};
  }

  // ---------------------------------------------------------------------
  // Option keys
  // ---------------------------------------------------------------------

  /** "{$item->target_type}-{$item->target_id}". */
  function OptionKey(item: I.Item): string
  {
    L.TypeKey(item.targetType) + "-" + IdText(item.targetId)
  }

  /** An option: a key and its label, or an option group (a label and its
      key/label pairs). */
  datatype OptionEntry = Choice(key: string, title: string) | OptGroup(title: string, choices: seq<(string, string)>)

  /** The array key an entry is filed under: its key, or the group label. */
  function TopKey(e: OptionEntry): string
  {
    if e.Choice? then e.key else e.title
  }

  /** The keys of a list of entries. */
  function TopKeys(options: seq<OptionEntry>): set<string>
  {
    if |options| == 0 then {} else {TopKey(options[0])} + TopKeys(options[1..])
  }

  /** The keys of key/label pairs. */
  function PairKeys(pairs: seq<(string, string)>): set<string>
  {
    if |pairs| == 0 then {} else {pairs[0].0} + PairKeys(pairs[1..])
  }

  /** The option keys offered by a list, inside groups or not. */
  function OfferedKeys(options: seq<OptionEntry>): set<string>
  {
    if |options| == 0 then {}
    else (if options[0].Choice? then {options[0].key} else PairKeys(options[0].choices)) + OfferedKeys(options[1..])
  }

  /** A flat list: no groups. */
  predicate Flat(options: seq<OptionEntry>)
  {
    forall i :: 0 <= i < |options| ==> options[i].Choice?
  }

  /** $flat[k] = v: the label of an existing key is replaced in its place,
      a new key goes last. */
  function PutChoice(flat: seq<OptionEntry>, k: string, v: string): (r: seq<OptionEntry>)
    ensures Flat(flat) ==> Flat(r)
    ensures TopKeys(r) == TopKeys(flat) + {k}
    ensures |r| > 0 && (|flat| > 0 ==> TopKey(r[0]) == TopKey(flat[0]))
  {
    if |flat| == 0 then [Choice(k, v)]
    else if TopKey(flat[0]) == k then [Choice(k, v)] + flat[1..]
    else [flat[0]] + PutChoice(flat[1..], k, v)
  }

  /** Every pair of a group put into the flat list, in order. */
  function PutPairs(flat: seq<OptionEntry>, pairs: seq<(string, string)>): (r: seq<OptionEntry>)
    ensures Flat(flat) ==> Flat(r)
    ensures TopKeys(r) == TopKeys(flat) + PairKeys(pairs)
    ensures |flat| > 0 ==> |r| > 0 && TopKey(r[0]) == TopKey(flat[0])
    decreases |pairs|
  {
    if |pairs| == 0 then flat
    else PutPairs(PutChoice(flat, pairs[0].0, pairs[0].1), pairs[1..])
  }

  /** OptGroup::flattenOptions() into an existing flat list. */
  function FlattenInto(flat: seq<OptionEntry>, options: seq<OptionEntry>): (r: seq<OptionEntry>)
    ensures Flat(flat) ==> Flat(r)
    ensures TopKeys(r) == TopKeys(flat) + OfferedKeys(options)
    ensures |flat| > 0 ==> |r| > 0 && TopKey(r[0]) == TopKey(flat[0])
    decreases |options|
  {
    if |options| == 0 then flat
    else
      var e := options[0];
      var next := if e.Choice? then PutChoice(flat, e.key, e.title) else PutPairs(flat, e.choices);
      FlattenInto(next, options[1..])
  }

  /** OptGroup::flattenOptions(): a flat list of every offered key, and a
      leading plain option stays first. */
  function Flatten(options: seq<OptionEntry>): (r: seq<OptionEntry>)
    ensures Flat(r) && TopKeys(r) == OfferedKeys(options)
    ensures |options| > 0 && options[0].Choice? ==> |r| > 0 && TopKey(r[0]) == options[0].key
  {
    if |options| == 0 then []
    else
      var e := options[0];
      if e.Choice? then FlattenInto([e], options[1..]) else FlattenInto(PutPairs([], e.choices), options[1..])
  }

  // ---------------------------------------------------------------------
  // getSelectedOptions()
  // ---------------------------------------------------------------------

  /** The option keys of the items, in item order, that are among the
      flat option keys. */
  function Selected(items: seq<I.Item>, keys: set<string>): (r: seq<string>)
    ensures |r| <= |items|
    ensures forall k :: 0 <= k < |r| ==> r[k] in keys
  {
    if |items| == 0 then []
    else
      var key := OptionKey(items[|items| - 1]);
      Selected(items[..|items| - 1], keys) + if key in keys then [key] else []
  }

  /** A key is selected exactly when it is an option and some item has it. */
  lemma {:induction false} SelectedExactly(items: seq<I.Item>, keys: set<string>, x: string)
    ensures x in Selected(items, keys) <==> x in keys && exists d :: 0 <= d < |items| && OptionKey(items[d]) == x
  {
    if |items| > 0 {
      var front := items[..|items| - 1];
      SelectedExactly(front, keys, x);
      if exists d :: 0 <= d < |front| && OptionKey(front[d]) == x {
        var d :| 0 <= d < |front| && OptionKey(front[d]) == x;
        assert OptionKey(items[d]) == x;
      }
      if exists d :: 0 <= d < |items| && OptionKey(items[d]) == x {
        var d :| 0 <= d < |items| && OptionKey(items[d]) == x;
        if d < |front| {
          assert OptionKey(front[d]) == x;
        }
      }
    }
  }

  /** When every item's key is an option, the selection is every item's
      key, in item order. */
  lemma {:induction false} SelectedKeepsOrder(items: seq<I.Item>, keys: set<string>)
    requires forall d :: 0 <= d < |items| ==> OptionKey(items[d]) in keys
    ensures var r := Selected(items, keys);
      |r| == |items| && forall d :: 0 <= d < |items| ==> r[d] == OptionKey(items[d])
  {
    if |items| > 0 {
      var front := items[..|items| - 1];
      SelectedKeepsOrder(front, keys);
    }
  }

  // ---------------------------------------------------------------------
  // massageFormValues()
  // ---------------------------------------------------------------------

  /** A submitted value: its target_type and target_id (the option key). */
  datatype FormValue = FormValue(targetType: Option<string>, targetId: Option<string>)

  /** One entry of massageFormValues(): list(target_type, target_id) =
      explode('-', target_id). The first piece is the type, the second (NULL
      when there is none) the id; further pieces are dropped. */
  function Massaged(v: FormValue): (r: FormValue)
    ensures r.targetType.Some? && '-' !in r.targetType.value
    ensures r.targetId.Some? ==> '-' !in r.targetId.value
  {
    var text := if v.targetId.Some? then v.targetId.value else "";
    SplitPiecesHaveNoSeparator(text, '-');
    var pieces := Split(text, '-');
    FormValue(Some(pieces[0]), if |pieces| >= 2 then Some(pieces[1]) else None)
  }

  /** massageFormValues(): every entry rewritten in place. */
  method MassageFormValues(values: seq<FormValue>) returns (r: seq<FormValue>)
    ensures |r| == |values| && forall k :: 0 <= k < |r| ==> r[k] == Massaged(values[k])
  {
    r := values;
    var index := 0;
    while index < |r|
      invariant |r| == |values| && index <= |r|
      invariant forall k :: 0 <= k < index ==> r[k] == Massaged(values[k])
      invariant forall k :: index <= k < |r| ==> r[k] == values[k]
    {
      r := r[index := Massaged(r[index])];
      index := index + 1;
    }
  }

  /** Round trip: the option key of an item whose type and id hold no '-'
      is split back into that type and id. */
  lemma MassageRoundTrip(item: I.Item, v: FormValue)
    requires '-' !in L.TypeKey(item.targetType) && '-' !in IdText(item.targetId)
    requires v.targetId == Some(OptionKey(item))
    ensures Massaged(v) == FormValue(Some(L.TypeKey(item.targetType)), Some(IdText(item.targetId)))
  {
    var t := L.TypeKey(item.targetType);
    var i := IdText(item.targetId);
    SplitAtSeparator(t, i, '-');
    SplitWithoutSeparator(t, '-');
    SplitWithoutSeparator(i, '-');
  }

  /** An id holding '-' comes back cut at its first '-'. */
  lemma MassageTruncatesId(t: string, a: string, b: string, v: FormValue)
    requires '-' !in t && '-' !in a
    requires v.targetId == Some(t + "-" + a + "-" + b)
    ensures Massaged(v) == FormValue(Some(t), Some(a))
  {
    SplitAtSeparator(t + "-" + a, b, '-');
    SplitAtSeparator(t, a, '-');
    SplitWithoutSeparator(t, '-');
    SplitWithoutSeparator(a, '-');
    assert t + "-" + a + "-" + b == t + "-" + a + ['-'] + b;
    assert t + "-" + a == t + ['-'] + a;
  }

  /** A key without '-' becomes the type, with no id. */
  lemma MassageWithoutDash(s: string, v: FormValue)
    requires '-' !in s && v.targetId == Some(s)
    ensures Massaged(v) == FormValue(Some(s), None)
  {
    SplitWithoutSeparator(s, '-');
  }

  // ---------------------------------------------------------------------
  // The empty option and getOptions()
  // ---------------------------------------------------------------------

  /** getEmptyOption(): none, OPTIONS_EMPTY_NONE or OPTIONS_EMPTY_SELECT. */
  datatype EmptyOption = NoEmptyOption | EmptyNone | EmptySelect

  const NotApplicable := "N/A"
  const NoneLabel := "- None -"
  const SelectLabel := "- Select a value -"
  const NoneKey := "_none"

  /** getEmptyLabel(): 'N/A' for a plugin id containing 'buttons',
      otherwise the label of the empty-option mode. */
  function EmptyLabel(pluginId: string, emptyOption: EmptyOption): (r: string)
    ensures r == NotApplicable <==> Contains(pluginId, "buttons")
    ensures !Contains(pluginId, "buttons") ==> r == if emptyOption == EmptyNone then NoneLabel else SelectLabel
  {
    if Contains(pluginId, "buttons") then NotApplicable
    else if emptyOption == EmptyNone then NoneLabel else SelectLabel
  }

  /** The label getOptions() picks: by plugin id for the two core widgets,
      getEmptyLabel() for any other. */
  function SwitchLabel(pluginId: string, emptyOption: EmptyOption): string
  {
    if pluginId == "options_buttons" then NotApplicable
    else if pluginId == "options_select" then (if emptyOption == EmptyNone then NoneLabel else SelectLabel)
    else EmptyLabel(pluginId, emptyOption)
  }

  /** A string holding a substring holds its first character. */
  lemma ContainsFirst(s: string, sub: string)
    requires |sub| > 0 && Contains(s, sub)
    ensures sub[0] in s
  {
    var k: nat :| k <= |s| && OccursAt(s, sub, k);
    assert s[k] == sub[0];
  }

  /** The switch agrees with getEmptyLabel() for every plugin id. */
  lemma SwitchIsEmptyLabel(pluginId: string, emptyOption: EmptyOption)
    ensures SwitchLabel(pluginId, emptyOption) == EmptyLabel(pluginId, emptyOption)
  {
    if pluginId == "options_buttons" {
      assert OccursAt(pluginId, "buttons", 8);
    } else if pluginId == "options_select" {
      if Contains(pluginId, "buttons") {
        ContainsFirst(pluginId, "buttons");
        assert false;
      }
    }
  }

  /** The entries whose key is not key. */
  function Without(options: seq<OptionEntry>, key: string): (r: seq<OptionEntry>)
    ensures key !in TopKeys(r) && TopKeys(r) == TopKeys(options) - {key}
    ensures |r| <= |options|
  {
    if |options| == 0 then []
    else if TopKey(options[0]) == key then Without(options[1..], key)
    else [options[0]] + Without(options[1..], key)
  }

  /** An entry list without key is unchanged by dropping key. */
  lemma {:induction false} WithoutAbsent(options: seq<OptionEntry>, key: string)
    requires key !in TopKeys(options)
    ensures Without(options, key) == options
  {
    if |options| > 0 {
      WithoutAbsent(options[1..], key);
      assert [options[0]] + options[1..] == options;
    }
  }

  /** array('_none' => emptyLabel) + options: the empty option first, and an
      existing '_none' entry dropped. */
  function WithEmptyOption(options: seq<OptionEntry>, emptyLabel: string): (r: seq<OptionEntry>)
    ensures |r| > 0 && r[0] == Choice(NoneKey, emptyLabel)
    ensures TopKeys(r) == TopKeys(options) + {NoneKey}
  {
    [Choice(NoneKey, emptyLabel)] + Without(options, NoneKey)
  }

  /** The options getOptions() computes: the settable options, the empty
      option in front when the widget has one, the alter hooks (and label
      sanitising), and flattening when the widget has no groups. */
  function BuiltOptions(settable: seq<OptionEntry>, alter: seq<OptionEntry> -> seq<OptionEntry>, pluginId: string,
                        emptyOption: EmptyOption, supportsGroups: bool): seq<OptionEntry>
  {
    var withEmpty := if emptyOption.NoEmptyOption? then settable else WithEmptyOption(settable, SwitchLabel(pluginId, emptyOption));
    var altered := alter(withEmpty);
    if supportsGroups then altered else Flatten(altered)
  }

  /** When the widget has an empty option and the hooks leave the list as
      it is, '_none' comes first, labelled by getEmptyLabel(), and the
      settable options follow. */
  lemma EmptyOptionFirst(settable: seq<OptionEntry>, alter: seq<OptionEntry> -> seq<OptionEntry>, pluginId: string,
                         emptyOption: EmptyOption, supportsGroups: bool)
    requires !emptyOption.NoEmptyOption?
    requires forall x :: alter(x) == x
    ensures var r := BuiltOptions(settable, alter, pluginId, emptyOption, supportsGroups);
      |r| > 0 && TopKey(r[0]) == NoneKey &&
      (supportsGroups ==> r[0] == Choice(NoneKey, EmptyLabel(pluginId, emptyOption))) &&
      (supportsGroups && NoneKey !in TopKeys(settable) ==> r[1..] == settable)
  {
    SwitchIsEmptyLabel(pluginId, emptyOption);
    if NoneKey !in TopKeys(settable) {
      WithoutAbsent(settable, NoneKey);
    }
  }

  /** An options widget: its plugin id, empty-option mode and group
      support, and the options cached by the first getOptions(). */
  class OptionsWidget {
    const pluginId: string
    const emptyOption: EmptyOption
    const supportsGroups: bool
    var options: Option<seq<OptionEntry>>

    constructor (pluginId: string, emptyOption: EmptyOption, supportsGroups: bool)
      ensures this.pluginId == pluginId && this.emptyOption == emptyOption && this.supportsGroups == supportsGroups
      ensures options.None?
    {
      this.pluginId := pluginId;
      this.emptyOption := emptyOption;
      this.supportsGroups := supportsGroups;
      options := None;
    }

    /** getOptions(): built on the first call, the cached list afterwards,
        whatever the provider and the hooks would then give. */
    method GetOptions(settable: seq<OptionEntry>, alter: seq<OptionEntry> -> seq<OptionEntry>) returns (r: seq<OptionEntry>)
      modifies this
      ensures old(options).Some? ==> options == old(options) && r == options.value
      ensures old(options).None? ==> r == BuiltOptions(settable, alter, pluginId, emptyOption, supportsGroups) && options == Some(r)
    {
      if options.None? {
        var built := settable;
        if !emptyOption.NoEmptyOption? {
          var text;
          if pluginId == "options_buttons" {
            text := NotApplicable;
          } else if pluginId == "options_select" {
            text := if emptyOption == EmptyNone then NoneLabel else SelectLabel;
          } else {
            text := EmptyLabel(pluginId, emptyOption);
          }
          built := WithEmptyOption(built, text);
        }
        built := alter(built);
        if !supportsGroups {
          built := Flatten(built);
        }
        options := Some(built);
      }
      r := options.value;
    }

    /** getSelectedOptions(): the option keys of the items that are among
        the flattened options, in item order. */
    method GetSelectedOptions(items: seq<I.Item>, settable: seq<OptionEntry>, alter: seq<OptionEntry> -> seq<OptionEntry>)
      returns (selected: seq<string>)
      modifies this
      ensures old(options).Some? ==> options == old(options)
      ensures old(options).None? ==> options == Some(BuiltOptions(settable, alter, pluginId, emptyOption, supportsGroups))
      ensures options.Some? && selected == Selected(items, OfferedKeys(options.value))
    {
      var all := GetOptions(settable, alter);
      var flat := Flatten(all);
      var keys := TopKeys(flat);
      selected := [];
      var i := 0;
      while i < |items|
        invariant i <= |items| && selected == Selected(items[..i], keys)
      {
        assert items[..i + 1][..i] == items[..i];
        var value := OptionKey(items[i]);
        if value in keys {
          selected := selected + [value];
        }
        i := i + 1;
      }
      assert items[..i] == items;
    }
  }
}
