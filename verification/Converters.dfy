/**
 Choosing converters: from one repository and one list of explicit selections two
 unambiguous maps are built, by data type for sending and by wire schema for receiving.
 */
module Converters {
  import opened Wrappers

  type WireSchema = string
  type DataType = string

  /** A converter is known by its address; the signature is what it was registered under. */
  datatype Converter = Converter(address: nat, wireSchema: WireSchema, dataType: DataType)

  type ConverterMap = map<(WireSchema, DataType), Converter>

  datatype Problem =
    | AlreadyRegistered(wireSchema: WireSchema, dataType: DataType)
    | AlreadyStored(key: string)
    | Ambiguous(key: string, candidates: set<string>)
    | SelectedTwice(dataType: DataType)
    | NoSuchConverter(key: string)

  // ---------------------------------------------------------------------
  // Explicit selections
  // ---------------------------------------------------------------------

  datatype Direction = Serialization | Deserialization

  /** The wire schema last listed with each data type, or the other way round. */
  function Selected(selection: seq<(WireSchema, DataType)>, direction: Direction): map<string, string> {
    if selection == [] then map[]
    else
      var n := |selection| - 1;
      var (wireSchema, dataType) := selection[n];
      Selected(selection[..n], direction)
        [(if direction.Serialization? then dataType else wireSchema) :=
         (if direction.Serialization? then wireSchema else dataType)]
  }

  /** Two entries select a wire schema for one data type. */
  ghost predicate Clashes(selection: seq<(WireSchema, DataType)>) {
    exists i, j :: 0 <= i < j < |selection| && selection[i].1 == selection[j].1
  }

  lemma {:induction false} SelectedKeys(selection: seq<(WireSchema, DataType)>, direction: Direction, key: string)
    ensures key in Selected(selection, direction) <==>
      exists i :: 0 <= i < |selection| && key == if direction.Serialization? then selection[i].1 else selection[i].0
  {
    if selection != [] {
      var n := |selection| - 1;
      SelectedKeys(selection[..n], direction, key);
      if key in Selected(selection, direction) {
        if key in Selected(selection[..n], direction) {
          var i :| 0 <= i < n && key == if direction.Serialization? then selection[..n][i].1 else selection[..n][i].0;
          assert selection[i] == selection[..n][i];
        }
      }
      if i :| 0 <= i < n && key == if direction.Serialization? then selection[i].1 else selection[i].0 {
        assert selection[..n][i] == selection[i];
      }
    }
  }

  /** The last entry for a key decides. */
  lemma {:induction false} LastSelected(selection: seq<(WireSchema, DataType)>, i: nat)
    requires i < |selection|
    ensures (forall j :: i < j < |selection| ==> selection[j].1 != selection[i].1) ==>
      var m := Selected(selection, Serialization);
      selection[i].1 in m && m[selection[i].1] == selection[i].0
    ensures (forall j :: i < j < |selection| ==> selection[j].0 != selection[i].0) ==>
      var m := Selected(selection, Deserialization);
      selection[i].0 in m && m[selection[i].0] == selection[i].1
  {
    var n := |selection| - 1;
    if i < n {
      LastSelected(selection[..n], i);
    }
  }

  lemma StillNoClash(selection: seq<(WireSchema, DataType)>, n: nat)
    requires n < |selection| && !Clashes(selection[..n])
    requires forall i :: 0 <= i < n ==> selection[i].1 != selection[n].1
    ensures !Clashes(selection[..n + 1])
  {
  }

  /** converterSelectionToMap(): only the sending direction rejects a second choice for a key. */
  method ConverterSelectionToMap(selection: seq<(WireSchema, DataType)>, direction: Direction)
    returns (r: Result<map<string, string>, Problem>)
    ensures r.Failure? <==> direction.Serialization? && Clashes(selection)
    ensures r.Failure? ==> r.error.SelectedTwice?
    ensures r.Success? ==> r.value == Selected(selection, direction)
    ensures r.Success? && direction.Serialization? ==>
      forall i :: 0 <= i < |selection| ==> selection[i].1 in r.value && r.value[selection[i].1] == selection[i].0
    ensures r.Success? && direction.Deserialization? ==>
      forall i | 0 <= i < |selection| && (forall j :: i < j < |selection| ==> selection[j].0 != selection[i].0) ::
        selection[i].0 in r.value && r.value[selection[i].0] == selection[i].1
  {
    var result: map<string, string> := map[];
    assert selection[..0] == [];
    for it := 0 to |selection|
      invariant result == Selected(selection[..it], direction)
      invariant direction.Serialization? ==> !Clashes(selection[..it])
    {
      var (wireSchema, dataType) := selection[it];
      assert selection[..it + 1][..it] == selection[..it];
      SelectedKeys(selection[..it], direction, dataType);
      if direction.Deserialization? {
        result := result[wireSchema := dataType];
      } else {
        if dataType in result {
          assert Clashes(selection);
          return Failure(SelectedTwice(dataType));
        }
        StillNoClash(selection, it);
        result := result[dataType := wireSchema];
      }
    }
    assert selection[..|selection|] == selection;
    forall i | 0 <= i < |selection| {
      LastSelected(selection, i);
    }
    return Success(result);
  }

  // ---------------------------------------------------------------------
  // What the maps should contain
  // ---------------------------------------------------------------------

  /** The key a signature is filed under, and the value an explicit selection of that key must name. */
  function KeyOf(signature: (WireSchema, DataType), direction: Direction): string {
    if direction.Serialization? then signature.1 else signature.0
  }

  function ValueOf(signature: (WireSchema, DataType), direction: Direction): string {
    if direction.Serialization? then signature.0 else signature.1
  }

  /** The signature may be used: its key is not selected explicitly, or selected to its value. */
  predicate Admitted(selection: map<string, string>, signature: (WireSchema, DataType), direction: Direction) {
    var key := KeyOf(signature, direction);
    key in selection ==> selection[key] == ValueOf(signature, direction)
  }

  /** No key without an explicit selection has two registered converters. */
  ghost predicate Unambiguous(converters: ConverterMap, selection: map<string, string>, direction: Direction) {
    forall s, s' :: s in converters && s' in converters && s != s' && KeyOf(s, direction) == KeyOf(s', direction) ==>
      KeyOf(s, direction) in selection
  }

  /** The values registered with a key, for the error message. */
  function Candidates(converters: ConverterMap, key: string, direction: Direction): set<string> {
    set s | s in converters && KeyOf(s, direction) == key :: ValueOf(s, direction)
  }

  /** The map holds under each key the one registered converter admitted for it, and nothing else. */
  ghost predicate Chosen(
    result: map<string, Converter>, converters: ConverterMap, selection: map<string, string>, direction: Direction)
  {
    && (forall s :: s in converters && Admitted(selection, s, direction) ==>
          KeyOf(s, direction) in result && result[KeyOf(s, direction)] == converters[s])
    && (forall key :: key in result ==>
          exists s :: s in converters && Admitted(selection, s, direction) && KeyOf(s, direction) == key)
  }

  /** At most one map fits, so the order in which the repository is searched does not matter. */
  lemma ChosenUnique(
    a: map<string, Converter>, b: map<string, Converter>,
    converters: ConverterMap, selection: map<string, string>, direction: Direction)
    requires Chosen(a, converters, selection, direction) && Chosen(b, converters, selection, direction)
    ensures a == b
  {
  }

  // ---------------------------------------------------------------------
  // The classes
  // ---------------------------------------------------------------------

  class UnambiguousConverterMap {
    var converters: map<string, Converter>

    constructor ()
      ensures converters == map[]
    {
      converters := map[];
    }

    method AddConverter(key: string, converter: Converter) returns (r: Result<(), Problem>)
      modifies this
      ensures r.Success? <==> key !in old(converters)
      ensures converters == if r.Success? then old(converters)[key := converter] else old(converters)
    {
      if key in converters {
        return Failure(AlreadyStored(key));
      }
      converters := converters[key := converter];
      return Success(());
    }

    function GetConverter(key: string): (r: Result<Converter, Problem>)
      reads this
      ensures r.Success? <==> key in converters
      ensures r.Success? ==> r.value == converters[key]
    {
      if key in converters then Success(converters[key]) else Failure(NoSuchConverter(key))
    }
  }

  class Repository {
    var converters: ConverterMap

    /** Every converter is registered under its own signature. */
    ghost predicate Valid()
      reads this
    {
      forall s :: s in converters ==> s == (converters[s].wireSchema, converters[s].dataType)
    }

    constructor ()
      ensures Valid() && converters == map[]
    {
      converters := map[];
    }

    method RegisterConverter(converter: Converter, replace: bool) returns (r: Result<(), Problem>)
      requires Valid()
      modifies this
      ensures Valid()
      ensures r.Failure? <==> (converter.wireSchema, converter.dataType) in old(converters) && !replace
      ensures r.Failure? ==> r.error == AlreadyRegistered(converter.wireSchema, converter.dataType)
      ensures converters == if r.Failure? then old(converters)
                            else old(converters)[(converter.wireSchema, converter.dataType) := converter]
    {
      var signature := (converter.wireSchema, converter.dataType);
      if signature in converters && !replace {
        return Failure(AlreadyRegistered(converter.wireSchema, converter.dataType));
      }
      converters := converters[signature := converter];
      return Success(());
    }

    /** The map by data type, for sending. */
    method GetConvertersForSerialization(selection: map<string, string>)
      returns (r: Result<UnambiguousConverterMap, Problem>)
      ensures r.Success? <==> Unambiguous(converters, selection, Serialization)
      ensures r.Success? <==>
        forall w, w', d :: (w, d) in converters && (w', d) in converters && w != w' ==> d in selection
      ensures r.Success? ==> fresh(r.value) && Chosen(r.value.converters, converters, selection, Serialization)
      ensures r.Failure? ==> r.error.Ambiguous? && r.error.key !in selection
      ensures r.Failure? ==>
        && |r.error.candidates| >= 2
        && forall w :: w in r.error.candidates <==> (w, r.error.key) in converters
    {
      r := Collect(selection, Serialization);
    }

    /** The map by wire schema, for receiving. */
    method GetConvertersForDeserialization(selection: map<string, string>)
      returns (r: Result<UnambiguousConverterMap, Problem>)
      ensures r.Success? <==> Unambiguous(converters, selection, Deserialization)
      ensures r.Success? <==>
        forall w, d, d' :: (w, d) in converters && (w, d') in converters && d != d' ==> w in selection
      ensures r.Success? ==> fresh(r.value) && Chosen(r.value.converters, converters, selection, Deserialization)
      ensures r.Failure? ==> r.error.Ambiguous? && r.error.key !in selection
      ensures r.Failure? ==>
        && |r.error.candidates| >= 2
        && forall d :: d in r.error.candidates <==> (r.error.key, d) in converters
    {
      r := Collect(selection, Deserialization);
    }

    /** The loop both methods run over the registered converters, in whatever order. */
    method Collect(selection: map<string, string>, direction: Direction)
      returns (r: Result<UnambiguousConverterMap, Problem>)
      ensures r.Success? <==> Unambiguous(converters, selection, direction)
      ensures r.Success? ==> fresh(r.value) && Chosen(r.value.converters, converters, selection, direction)
      ensures r.Failure? ==> r.error.Ambiguous? && r.error.key !in selection
      ensures r.Failure? ==> r.error.candidates == Candidates(converters, r.error.key, direction)
      ensures r.Failure? ==> |r.error.candidates| >= 2
    {
      hide Chosen, Unambiguous;
      var result := new UnambiguousConverterMap();
      NothingChosen(selection, direction);
      var rest := converters.Keys;
      ghost var done: ConverterMap := map[];
      while rest != {}
        invariant rest <= converters.Keys && fresh(result)
        invariant done == map s | s in converters && s !in rest :: converters[s]
        invariant Chosen(result.converters, done, selection, direction)
        invariant Unambiguous(done, selection, direction)
      {
        var s :| s in rest;
        var key := KeyOf(s, direction);
        ghost var before := result.converters;
        if Admitted(selection, s, direction) {
          var added := result.AddConverter(key, converters[s]);
          if added.Failure? {
            Conflict(result.converters, done, converters, selection, direction, s);
            return Failure(Ambiguous(key, Candidates(converters, key, direction)));
          }
        }
        Extended(before, result.converters, done, converters, selection, direction, s);
        StillUnambiguous(before, done, converters, selection, direction, s);
        done := done[s := converters[s]];
        rest := rest - {s};
      }
      assert done == converters;
      return Success(result);
    }
  }

  lemma NothingChosen(selection: map<string, string>, direction: Direction)
    ensures Chosen(map[], map[], selection, direction) && Unambiguous(map[], selection, direction)
  {
  }

  /** A second admitted converter for a key means that the key is not selected, so the set is ambiguous. */
  lemma Conflict(
    result: map<string, Converter>, done: ConverterMap, converters: ConverterMap,
    selection: map<string, string>, direction: Direction, s: (WireSchema, DataType))
    requires Chosen(result, done, selection, direction) && KeyOf(s, direction) in result
    requires s in converters && s !in done && done.Keys <= converters.Keys && Admitted(selection, s, direction)
    ensures KeyOf(s, direction) !in selection && !Unambiguous(converters, selection, direction)
    ensures |Candidates(converters, KeyOf(s, direction), direction)| >= 2
  {
    var key := KeyOf(s, direction);
    var other :| other in done && Admitted(selection, other, direction) && KeyOf(other, direction) == key;
    var candidates := Candidates(converters, key, direction);
    var values := {ValueOf(s, direction), ValueOf(other, direction)};
    assert candidates == values + (candidates - values);
  }

  /** One round of the loop that meets no conflict. */
  lemma Extended(
    before: map<string, Converter>, after: map<string, Converter>, done: ConverterMap, converters: ConverterMap,
    selection: map<string, string>, direction: Direction, s: (WireSchema, DataType))
    requires Chosen(before, done, selection, direction)
    requires s in converters && s !in done
    requires after == if Admitted(selection, s, direction) then before[KeyOf(s, direction) := converters[s]] else before
    requires Admitted(selection, s, direction) ==> KeyOf(s, direction) !in before
    ensures Chosen(after, done[s := converters[s]], selection, direction)
  {
  }

  lemma StillUnambiguous(
    before: map<string, Converter>, done: ConverterMap, converters: ConverterMap,
    selection: map<string, string>, direction: Direction, s: (WireSchema, DataType))
    requires Chosen(before, done, selection, direction) && Unambiguous(done, selection, direction)
    requires s in converters && s !in done
    requires Admitted(selection, s, direction) ==> KeyOf(s, direction) !in before
    ensures Unambiguous(done[s := converters[s]], selection, direction)
  {
  }

  // ---------------------------------------------------------------------
  // Both directions
  // ---------------------------------------------------------------------

  /**
   The converter chosen for sending a data type is the one chosen for receiving its
   wire schema if and only if that wire schema is not selected for receiving, or is
   selected to the data type.
   */
  lemma SameConverterBothWaysIff(
    converters: ConverterMap, selection: seq<(WireSchema, DataType)>,
    sending: map<string, Converter>, receiving: map<string, Converter>, dataType: DataType)
    requires forall s :: s in converters ==> s == (converters[s].wireSchema, converters[s].dataType)
    requires Chosen(sending, converters, Selected(selection, Serialization), Serialization)
    requires Chosen(receiving, converters, Selected(selection, Deserialization), Deserialization)
    requires dataType in sending
    ensures
      var chosen := sending[dataType];
      var selected := Selected(selection, Deserialization);
      (chosen.wireSchema in receiving && receiving[chosen.wireSchema] == chosen) <==>
      (chosen.wireSchema in selected ==> selected[chosen.wireSchema] == dataType)
  {
  }

  /** The signature with a key and a value. */
  function SignatureOf(key: string, value: string, direction: Direction): (WireSchema, DataType) {
    if direction.Serialization? then (value, key) else (key, value)
  }

  /** A connector gets its converters: the selection list is acceptable and leaves no key ambiguous. */
  ghost predicate Configured(converters: ConverterMap, selection: seq<(WireSchema, DataType)>, direction: Direction) {
    && (direction.Serialization? ==> !Clashes(selection))
    && Unambiguous(converters, Selected(selection, direction), direction)
  }

  /**
   From configuration to converter: a connector builds its map from the selection list and
   the repository and looks a key up. Nothing is found unless the connector can be
   configured; then a selected key yields exactly the converter selected for it, and any
   other key the only converter registered with it.
   */
  method Lookup(repository: Repository, selection: seq<(WireSchema, DataType)>, direction: Direction, key: string)
    returns (r: Result<Converter, Problem>)
    ensures (r.Success? || r.error.NoSuchConverter?) <==> Configured(repository.converters, selection, direction)
    ensures r.Failure? && r.error.SelectedTwice? <==> direction.Serialization? && Clashes(selection)
    ensures var selected, converters := Selected(selection, direction), repository.converters;
      Configured(converters, selection, direction) ==>
        && (key in selected ==>
              var s := SignatureOf(key, selected[key], direction);
              (r.Success? <==> s in converters) && (r.Success? ==> r.value == converters[s]))
        && (key !in selected ==>
              && (r.Success? <==> exists s :: s in converters && KeyOf(s, direction) == key)
              && (r.Success? ==>
                    forall s :: s in converters && KeyOf(s, direction) == key ==> r.value == converters[s]))
  {
    var mapped := ConverterSelectionToMap(selection, direction);
    if mapped.Failure? {
      return Failure(mapped.error);
    }
    var built: Result<UnambiguousConverterMap, Problem>;
    if direction.Serialization? {
      built := repository.GetConvertersForSerialization(mapped.value);
    } else {
      built := repository.GetConvertersForDeserialization(mapped.value);
    }
    if built.Failure? {
      return Failure(built.error);
    }
    r := built.value.GetConverter(key);
    LookupIff(built.value, repository.converters, mapped.value, direction, key);
    if key in mapped.value {
      AdmittedSignature(mapped.value, direction, key);
    }
  }

  /** Of the signatures with a selected key only the selected one is admitted. */
  lemma AdmittedSignature(selected: map<string, string>, direction: Direction, key: string)
    requires key in selected
    ensures forall s :: Admitted(selected, s, direction) && KeyOf(s, direction) == key <==>
      s == SignatureOf(key, selected[key], direction)
  {
  }

  /** A lookup in a chosen map finds the one admitted converter of the repository with that key, if there is one. */
  lemma LookupIff(
    choice: UnambiguousConverterMap, converters: ConverterMap, selection: map<string, string>, direction: Direction,
    key: string)
    requires Chosen(choice.converters, converters, selection, direction)
    ensures choice.GetConverter(key).Success? <==>
      exists s :: s in converters && Admitted(selection, s, direction) && KeyOf(s, direction) == key
    ensures choice.GetConverter(key).Success? ==>
      forall s :: s in converters && Admitted(selection, s, direction) && KeyOf(s, direction) == key ==>
        choice.GetConverter(key).value == converters[s]
  {
  }

  /**
   A selection can make the two directions disagree: one wire schema is registered for two
   data types and selected to the second; the first is still sent with it, and what is then
   received is handed to the converter of the second.
   */
  lemma AsymmetricSelection(w: WireSchema, d: DataType, e: DataType, c: Converter, c': Converter)
    returns (converters: ConverterMap, sending: map<string, Converter>, receiving: map<string, Converter>)
    requires d != e && c == Converter(c.address, w, d) && c' == Converter(c'.address, w, e)
    ensures converters == map[(w, d) := c, (w, e) := c']
    ensures Chosen(sending, converters, Selected([(w, e)], Serialization), Serialization)
    ensures Chosen(receiving, converters, Selected([(w, e)], Deserialization), Deserialization)
    ensures d in sending && sending[d] == c
    ensures c.wireSchema in receiving && receiving[c.wireSchema] == c' != c
  {
    converters := map[(w, d) := c, (w, e) := c'];
    sending := map[d := c, e := c'];
    receiving := map[w := c'];
    var first, second := (w, d), (w, e);
    assert Selected([second], Serialization) == map[e := w] && Selected([second], Deserialization) == map[w := e] by {
      assert [second][..0] == [];
    }
    assert first in converters && KeyOf(first, Serialization) == d;
    assert second in converters && KeyOf(second, Serialization) == e && KeyOf(second, Deserialization) == w;
  }
}
