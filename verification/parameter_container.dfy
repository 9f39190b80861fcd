/**
 * The part of the framework's parameter container both statements rely
 * on: an ordered list of named or positional values, each with optional
 * errata (a declared SQL type), and the "standard merging block" with
 * which `execute` combines the container it holds with its argument.
 */
module ParameterContainer {
  import opened Wrappers
  import opened Php

  /** The declared types (`TYPE_*`); `TypeOther` stands for the rest, such as `auto` and `binary`. */
  datatype Errata = TypeNull | TypeInteger | TypeDouble | TypeString | TypeLob | TypeOther(name: string)

  /** One entry: its name (an integer for a positional one), value and errata. */
  datatype Param = Param(name: Key, value: Value, errata: Option<Errata>)

  predicate HasName(params: seq<Param>, name: Key) {
    exists i :: 0 <= i < |params| && params[i].name == name
  }

  /** `offsetSet($name, $value)`: a known name gets the new value and keeps its errata; a new one is appended. */
  function SetValue(params: seq<Param>, name: Key, v: Value): (r: seq<Param>)
    ensures HasName(params, name) ==> |r| == |params|
    ensures !HasName(params, name) ==> r == params + [Param(name, v, None)]
    ensures forall i :: 0 <= i < |params| ==> r[i].name == params[i].name && r[i].errata == params[i].errata
    ensures forall i :: 0 <= i < |params| && params[i].name != name ==> r[i] == params[i]
    ensures forall i :: 0 <= i < |r| && r[i].name == name ==> r[i].value == v
    ensures HasName(r, name)
  {
    if HasName(params, name) then
      var r := seq(|params|, i requires 0 <= i < |params| => if params[i].name == name then params[i].(value := v) else params[i]);
      var i :| 0 <= i < |params| && params[i].name == name;
      assert r[i].name == name;
      r
    else
      var r := params + [Param(name, v, None)];
      assert r[|params|].name == name;
      r
  }

  /** `setFromArray()`: every entry in array order. */
  function SetFromArray(params: seq<Param>, entries: seq<Entry>): (r: seq<Param>)
    ensures |r| >= |params|
    decreases |entries|
  {
    if |entries| == 0 then params
    else SetFromArray(SetValue(params, entries[0].key, entries[0].value), entries[1..])
  }

  /**
   * After `setFromArray`, the entries already in the container keep their
   * name and errata, and a name the array gives ends up with the value of
   * its LAST occurrence in the array.
   */
  lemma {:induction false} SetFromArrayLast(params: seq<Param>, entries: seq<Entry>, j: nat)
    requires j < |entries|
    requires forall k :: j < k < |entries| ==> entries[k].key != entries[j].key
    ensures var r := SetFromArray(params, entries);
      && HasName(r, entries[j].key)
      && (forall i :: 0 <= i < |r| && r[i].name == entries[j].key ==> r[i].value == entries[j].value)
    decreases |entries|
  {
    var next := SetValue(params, entries[0].key, entries[0].value);
    if j == 0 {
      SetFromArrayAbsent(next, entries[1..], entries[0].key);
    } else {
      forall k | j - 1 < k < |entries[1..]| ensures entries[1..][k].key != entries[1..][j - 1].key {
        assert entries[1..][k] == entries[k + 1];
      }
      SetFromArrayLast(next, entries[1..], j - 1);
    }
  }

  /** A name the array does not mention keeps its value, and nothing already present is lost. */
  lemma {:induction false} SetFromArrayAbsent(params: seq<Param>, entries: seq<Entry>, name: Key)
    requires forall k :: 0 <= k < |entries| ==> entries[k].key != name
    ensures var r := SetFromArray(params, entries);
      forall i :: 0 <= i < |params| ==> r[i].name == params[i].name && r[i].errata == params[i].errata
    ensures var r := SetFromArray(params, entries);
      forall i :: 0 <= i < |params| && params[i].name == name ==> r[i].value == params[i].value
    ensures var r := SetFromArray(params, entries);
      forall i :: |params| <= i < |r| ==> r[i].name != name
    ensures HasName(params, name) ==> HasName(SetFromArray(params, entries), name)
    decreases |entries|
  {
    if |entries| > 0 {
      var next := SetValue(params, entries[0].key, entries[0].value);
      forall k | 0 <= k < |entries[1..]| ensures entries[1..][k].key != name {
        assert entries[1..][k] == entries[k + 1];
      }
      SetFromArrayAbsent(next, entries[1..], name);
      if HasName(params, name) {
        var i :| 0 <= i < |params| && params[i].name == name;
        assert next[i].name == name;
      }
    }
  }

  /** What `execute` is given: nothing, a container, an array, or anything else. */
  datatype Arguments = NoArguments | ContainerArg(params: seq<Param>) | ArrayArg(entries: seq<Entry>) | OtherArg

  /**
   * The merging block: a statement without a container adopts the one it
   * is given (or a new empty one), and an array argument is merged in with
   * `setFromArray`.
   */
  function Merge(container: Option<seq<Param>>, args: Arguments): (r: seq<Param>)
    ensures container.Some? && !args.ArrayArg? ==> r == container.value
    ensures container.None? && args.ContainerArg? ==> r == args.params
    ensures container.None? && (args.NoArguments? || args.OtherArg?) ==> r == []
    ensures args.ArrayArg? ==> |r| >= |container.GetOr([])|
  {
    var base := match container
      case Some(c) => c
      case None => if args.ContainerArg? then args.params else [];
    if args.ArrayArg? then SetFromArray(base, args.entries) else base
  }

  /** A container argument given to a statement that already has one is ignored. */
  lemma HeldContainerWins(held: seq<Param>, given: seq<Param>)
    ensures Merge(Some(held), ContainerArg(given)) == held
  {
  }
}
