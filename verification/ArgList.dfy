/**
  Packed argument lists of format.h: up to fifteen arguments keep their types in the nibbles
  of one word, longer lists keep them beside the values and end with a terminator.
 */
module ArgList {
  import opened Wrappers

  /** Arg::Type: NONE is zero, the argument types are 1 to 14. */
  type Type = bv64

  const NONE: Type := 0
  const MAX_PACKED_ARGS: nat := 16

  /** An argument with its type, and a slot of the array that stores it. */
  datatype Arg<V> = Arg(ty: Type, value: V)

  datatype Storage<V> = Values(values: seq<V>) | Args(args: seq<Arg<V>>)

  datatype List<V> = List(types: bv64, storage: Storage<V>)

  ghost predicate Typed<V>(args: seq<Arg<V>>) {
    forall i :: 0 <= i < |args| ==> 1 <= args[i].ty <= 14
  }

  // ------------------------------------------------------------------ making a list

  /** make_type */
  function MakeType<V>(args: seq<Arg<V>>): bv64 {
    if args == [] then 0 else args[0].ty | (MakeType(args[1..]) << 4)
  }

  /** set_types: the types are written only beyond MAX_PACKED_ARGS, the terminator always. */
  function SetTypes<V>(slots: seq<Arg<V>>, args: seq<Arg<V>>): (r: seq<Arg<V>>)
    requires |slots| == |args| + 1
    ensures |r| == |slots|
  {
    var n := |args|;
    seq(|slots|, i requires 0 <= i < |slots| =>
      if i == n then slots[i].(ty := NONE)
      else if n > MAX_PACKED_ARGS then slots[i].(ty := args[i].ty)
      else slots[i])
  }

  /** store_args: values only, the types of slots stay. */
  function StoreArgs<V>(slots: seq<Arg<V>>, args: seq<Arg<V>>): (r: seq<Arg<V>>)
    requires |slots| >= |args|
    ensures |r| == |slots|
  {
    seq(|slots|, i requires 0 <= i < |slots| => if i < |args| then slots[i].(value := args[i].value) else slots[i])
  }

  function ValuesOf<V>(args: seq<Arg<V>>): seq<V> {
    seq(|args|, i requires 0 <= i < |args| => args[i].value)
  }

  /** make_arg_list; slots is the uninitialised array that a long list is built in. */
  function MakeArgList<V>(args: seq<Arg<V>>, slots: seq<Arg<V>>): List<V>
    requires |slots| == |args| + 1
  {
    if |args| >= MAX_PACKED_ARGS
    then List(MakeType(args), Args(StoreArgs(SetTypes(slots, args), args)))
    else List(MakeType(args), Values(ValuesOf(args)))
  }

  // ------------------------------------------------------------------ nibbles

  /** ArgList::type: the nibble at shift index * 4, written out for each index. */
  function TypeAt(types: bv64, index: nat): Type
    requires index < 16
  {
    match index
    case 0 => (types & (0xf << 0)) >> 0
    case 1 => (types & (0xf << 4)) >> 4
    case 2 => (types & (0xf << 8)) >> 8
    case 3 => (types & (0xf << 12)) >> 12
    case 4 => (types & (0xf << 16)) >> 16
    case 5 => (types & (0xf << 20)) >> 20
    case 6 => (types & (0xf << 24)) >> 24
    case 7 => (types & (0xf << 28)) >> 28
    case 8 => (types & (0xf << 32)) >> 32
    case 9 => (types & (0xf << 36)) >> 36
    case 10 => (types & (0xf << 40)) >> 40
    case 11 => (types & (0xf << 44)) >> 44
    case 12 => (types & (0xf << 48)) >> 48
    case 13 => (types & (0xf << 52)) >> 52
    case 14 => (types & (0xf << 56)) >> 56
    case _ => (types & (0xf << 60)) >> 60
  }

  lemma NextType0(first: bv64, rest: bv64, index: nat)
    requires first < 16 && index < 4
    ensures TypeAt(first | (rest << 4), index + 1) == TypeAt(rest, index)
  {
  }

  lemma NextType4(first: bv64, rest: bv64, index: nat)
    requires first < 16 && 4 <= index < 6
    ensures TypeAt(first | (rest << 4), index + 1) == TypeAt(rest, index)
  {
  }

  lemma NextType6(first: bv64, rest: bv64, index: nat)
    requires first < 16 && 6 <= index < 8
    ensures TypeAt(first | (rest << 4), index + 1) == TypeAt(rest, index)
  {
  }

  lemma NextType8(first: bv64, rest: bv64, index: nat)
    requires first < 16 && 8 <= index < 10
    ensures TypeAt(first | (rest << 4), index + 1) == TypeAt(rest, index)
  {
  }

  lemma NextType10(first: bv64, rest: bv64, index: nat)
    requires first < 16 && 10 <= index < 12
    ensures TypeAt(first | (rest << 4), index + 1) == TypeAt(rest, index)
  {
  }

  lemma NextType12(first: bv64, rest: bv64, index: nat)
    requires first < 16 && 12 <= index < 15
    ensures TypeAt(first | (rest << 4), index + 1) == TypeAt(rest, index)
  {
  }

  lemma NextType(first: bv64, rest: bv64, index: nat)
    requires first < 16 && index < 15
    ensures TypeAt(first | (rest << 4), index + 1) == TypeAt(rest, index)
  {
    if index < 4 { NextType0(first, rest, index); }
    else if index < 6 { NextType4(first, rest, index); }
    else if index < 8 { NextType6(first, rest, index); }
    else if index < 10 { NextType8(first, rest, index); }
    else if index < 12 { NextType10(first, rest, index); }
    else { NextType12(first, rest, index); }
  }

  lemma FirstType(first: bv64, rest: bv64)
    requires first < 16
    ensures TypeAt(first | (rest << 4), 0) == first
  {
  }

  lemma NoType(index: nat)
    requires index < 16
    ensures TypeAt(0, index) == NONE
  {
  }

  /** Unpacking undoes packing: the first sixteen types, and NONE beyond the list. */
  lemma {:induction false} PackedType<V>(args: seq<Arg<V>>, index: nat)
    requires Typed(args) && index < 16
    ensures TypeAt(MakeType(args), index) == if index < |args| then args[index].ty else NONE
    decreases |args|
  {
    if args == [] {
      NoType(index);
    } else {
      var first, rest := args[0].ty, MakeType(args[1..]);
      if index == 0 {
        FirstType(first, rest);
      } else {
        NextType(first, rest, index - 1);
        PackedType(args[1..], index - 1);
      }
    }
  }

  // ------------------------------------------------------------------ reading a list

  /** operator[]: the argument, or None for one of type NONE; every array access is within its array. */
  method At<V>(list: List<V>, index: nat, ghost args: seq<Arg<V>>, ghost slots: seq<Arg<V>>) returns (r: Option<Arg<V>>)
    requires |slots| == |args| + 1 && Typed(args) && list == MakeArgList(args, slots)
    ensures r == if index < |args| then Some(args[index]) else None
  {
    PackedType(args, MAX_PACKED_ARGS - 1);
    var useValues := TypeAt(list.types, MAX_PACKED_ARGS - 1) == NONE;
    assert useValues == (|args| < MAX_PACKED_ARGS);
    if index < MAX_PACKED_ARGS {
      PackedType(args, index);
      var ty := TypeAt(list.types, index);
      if ty == NONE { return None; }
      var value := if useValues then list.storage.values[index] else list.storage.args[index].value;
      return Some(Arg(ty, value));
    }
    if useValues { return None; }
    var i := MAX_PACKED_ARGS;
    while i <= index
      invariant MAX_PACKED_ARGS <= i <= index + 1 && i <= |args|
      invariant i > MAX_PACKED_ARGS ==> i - 1 < |args|
    {
      Terminated(args, slots, i);
      if list.storage.args[i].ty == NONE { return None; }
      i := i + 1;
    }
    Terminated(args, slots, index);
    return Some(list.storage.args[index]);
  }

  /** From the sixteenth on, a slot of a long list holds its argument, and the last the terminator. */
  lemma Terminated<V>(args: seq<Arg<V>>, slots: seq<Arg<V>>, i: nat)
    requires |slots| == |args| + 1 && MAX_PACKED_ARGS <= i <= |args|
    ensures var stored := MakeArgList(args, slots).storage.args;
            |stored| == |args| + 1 && if i < |args| then stored[i] == args[i] else stored[i].ty == NONE
  {
  }
}
