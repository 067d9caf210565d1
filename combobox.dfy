/**
 * The searchable select (`combobox.tsx`): a button showing the selected
 * option's label, and a drop-down with a search box listing the options
 * whose label contains the query, ignoring case. The selected `value` is
 * owned by the parent; choosing an option reports it through `onChange`.
 */
module Combobox {
  import opened Optional
  import opened Text
  import opened Seqs

  /** An option; `text` is its `label`. */
  datatype ComboOption = ComboOption(value: string, text: string)

  /** The default `placeholder`. */
  const DefaultPlaceholder := "Seleccionar opción"

  /** The option's label contains the query, both lower-cased. */
  predicate LabelMatches(o: ComboOption, query: string) {
    Contains(ToLower(o.text), ToLower(query))
  }

  /** The list's filter predicate for a query. */
  function Matches(query: string): ComboOption -> bool {
    (o: ComboOption) => LabelMatches(o, query)
  }

  /** `filteredOptions` */
  function FilteredOptions(options: seq<ComboOption>, query: string): seq<ComboOption> {
    Filter(options, Matches(query))
  }

  /**
   * The list shows exactly the options whose label contains the query,
   * ignoring case, in their original order; the empty query shows them all;
   * the query's case does not matter; and filtering the list again by the
   * same query changes nothing.
   */
  lemma FilteredOptionsMeaning(options: seq<ComboOption>, query: string)
    ensures forall o :: o in FilteredOptions(options, query) <==> o in options && LabelMatches(o, query)
    ensures IsSubsequence(FilteredOptions(options, query), options)
    ensures FilteredOptions(options, "") == options
    ensures FilteredOptions(options, ToLower(query)) == FilteredOptions(options, query)
    ensures FilteredOptions(FilteredOptions(options, query), query) == FilteredOptions(options, query)
  {
    FilterIsSubsequence(options, Matches(query));
    forall o | o in options ensures Matches("")(o) {
      ContainsEmpty(ToLower(o.text));
    }
    FilterAll(options, Matches(""));
    ToLowerIdempotent(query);
    FilterCongruent(options, Matches(ToLower(query)), Matches(query));
    FilterIdempotent(options, Matches(query));
  }

  /** Typing more only narrows the list: an option listed for a longer query is listed for its prefix. */
  lemma TypingNarrows(options: seq<ComboOption>, query: string, more: string)
    ensures forall o :: o in FilteredOptions(options, query + more) ==> o in FilteredOptions(options, query)
  {
    forall o | o in FilteredOptions(options, query + more) ensures o in FilteredOptions(options, query) {
      var s := ToLower(o.text);
      var p, m := ToLower(query), ToLower(more);
      assert ToLower(query + more) == p + m;
      ContainsIff(s, p + m);
      var i :| OccursAt(s, p + m, i);
      assert s[i..i + |p|] == (p + m)[..|p|] == p;
      assert OccursAt(s, p, i);
      ContainsIff(s, p);
    }
  }

  /** The position of the first option with that value, or the length when there is none. */
  function FirstWithValue(options: seq<ComboOption>, value: string): (k: nat)
    ensures k <= |options|
    ensures k < |options| ==> options[k].value == value
    ensures forall j :: 0 <= j < k ==> options[j].value != value
  {
    if options == [] || options[0].value == value then 0
    else 1 + FirstWithValue(options[1..], value)
  }

  /** The selected option: the first option carrying the current value, if any. */
  function SelectedOption(options: seq<ComboOption>, value: string): (r: Option<ComboOption>)
    ensures r.None? <==> forall o :: o in options ==> o.value != value
    ensures r.Some? ==> r.value in options && r.value.value == value
    ensures r.Some? ==>
      exists i :: 0 <= i < |options| && options[i] == r.value && forall j :: 0 <= j < i ==> options[j].value != value
  {
    var k := FirstWithValue(options, value);
    if k < |options| then Some(options[k]) else None
  }

  /** The button's text: the selected option's label, or the placeholder when none is selected. */
  function ButtonLabel(options: seq<ComboOption>, value: string, placeholder: string): (r: string)
    ensures (forall o :: o in options ==> o.value != value) ==> r == placeholder
    ensures (exists o :: o in options && o.value == value) ==> exists o :: o in options && o.value == value && r == o.text
  {
    match SelectedOption(options, value)
    case None => placeholder
    case Some(o) => o.text
  }

  /** The option carries the current value: the row is highlighted (`bg-accent`) and its check mark shown. */
  predicate IsCurrent(o: ComboOption, value: string) {
    o.value == value
  }

  /** The check mark's opacity class. */
  function CheckOpacity(o: ComboOption, value: string): string {
    if IsCurrent(o, value) then "opacity-100" else "opacity-0"
  }

  /**
   * A row's check mark shows exactly when the row is highlighted; and when
   * the values are distinct, the highlighted row is the selected option and
   * no other.
   */
  lemma CurrentIsSelected(options: seq<ComboOption>, value: string)
    requires forall i, j :: 0 <= i < j < |options| ==> options[i].value != options[j].value
    ensures forall o :: CheckOpacity(o, value) == "opacity-100" <==> IsCurrent(o, value)
    ensures forall o :: o in options ==> (IsCurrent(o, value) <==> SelectedOption(options, value) == Some(o))
  {
    forall o | o in options ensures IsCurrent(o, value) <==> SelectedOption(options, value) == Some(o) {
      if IsCurrent(o, value) {
        var r := SelectedOption(options, value);
        var i :| 0 <= i < |options| && options[i] == r.value && forall j :: 0 <= j < i ==> options[j].value != value;
        var k :| 0 <= k < |options| && options[k] == o;
        assert k == i;
      }
    }
  }

  /** The component's own state: whether the list is open and the text in the search box. */
  class Combo {
    var options: seq<ComboOption>
    var open: bool
    var searchQuery: string

    constructor(options: seq<ComboOption>)
      ensures this.options == options && !open && searchQuery == ""
    {
      this.options := options;
      open := false;
      searchQuery := "";
    }

    /** The rows on screen: none while closed, otherwise the filtered options. */
    function Visible(): seq<ComboOption>
      reads this
    {
      if open then FilteredOptions(options, searchQuery) else []
    }

    /** "No se encontraron resultados." shows when the list is open and nothing matches. */
    predicate ShowsEmptyMessage()
      reads this
    {
      open && |FilteredOptions(options, searchQuery)| == 0
    }

    /** A click on the button flips `open`; a disabled button ignores it. The query is kept. */
    method ClickButton(disabled: bool)
      modifies this
      ensures open == if disabled then old(open) else !old(open)
      ensures options == old(options) && searchQuery == old(searchQuery)
    {
      if !disabled {
        open := !open;
      }
    }

    /** A mouse-down outside the component closes the list and keeps the query. */
    method ClickOutside()
      modifies this
      ensures !open && Visible() == []
      ensures options == old(options) && searchQuery == old(searchQuery)
    {
      open := false;
    }

    /** Typing into the search box, which exists only while the list is open. */
    method Search(query: string)
      requires open
      modifies this
      ensures searchQuery == query && open
      ensures options == old(options)
      ensures Visible() == FilteredOptions(options, query)
    {
      searchQuery := query;
    }

    /** The parent re-renders with other options (for instance once they have loaded). */
    method Receive(newOptions: seq<ComboOption>)
      modifies this
      ensures options == newOptions && open == old(open) && searchQuery == old(searchQuery)
    {
      options := newOptions;
    }

    /**
     * A click on a listed row: `onChange` gets its value, the query is
     * cleared and the list closes; reopened, it lists every option again.
     */
    method Choose(o: ComboOption) returns (changed: string)
      requires o in Visible()
      modifies this
      ensures changed == o.value
      ensures !open && searchQuery == "" && options == old(options)
      ensures FilteredOptions(options, searchQuery) == options
    {
      changed := o.value;
      searchQuery := "";
      open := false;
      FilteredOptionsMeaning(options, "");
    }
  }
}
