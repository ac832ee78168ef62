/**
 * The list type (objects/listobject.go): a slice of references and a
 * separate size field `lsize`. The functions here say what each list
 * operation makes of a list object; the `Heap` class writes the result
 * back in place. Every list the interpreter makes keeps
 * `lsize == len(list)` (`IsList`), and every operation preserves it.
 */
module ListObjects {
  import opened Common
  import opened Values
  import opened Arguments
  import Bits

  const LIST_MAX: int := 0x00ff_ffff
  const SUBSCRIPT_RANGE: string := "subscript position out of bounds"
  const NON_INT_REPEAT: string := "cant multiply sequence with non-integer"
  const TOO_LARGE: string := "repeated list became too large"
  const POSITION_RANGE: string := "position out of bounds"
  /** Go's panic when `make` is given a negative length. */
  const MAKESLICE: string := "makeslice: len out of range"

  /** A list object whose size field agrees with its slice. */
  predicate IsList(o: Obj)
  {
    o.ListObj? && o.lsize == |o.list|
  }

  /** `NewBlList(n)`: `n` nil slots; a negative `n` makes `make` panic. */
  function NewList(n: int): (r: Outcome<Obj>)
    ensures r.Done? <==> n >= 0
    ensures r.Fault? <==> n < 0
    ensures r.Done? ==> (IsList(r.value) && r.value.lsize == n
                         && forall k :: 0 <= k < n ==> r.value.list[k] == Null)
  {
    if n < 0 then Fault(MAKESLICE) else Done(ListObj(seq(n, _ => Null), n))
  }

  /** `Append`: the reference goes last and the size grows by one. */
  function Append(o: Obj, x: Ref): (r: Obj)
    requires o.ListObj?
  {
    ListObj(o.list + [x], o.lsize + 1)
  }

  lemma AppendPlacesLast(o: Obj, x: Ref)
    requires IsList(o)
    ensures IsList(Append(o, x))
    ensures |Append(o, x).list| == |o.list| + 1 && Append(o, x).list[|o.list|] == x
    ensures forall k :: 0 <= k < |o.list| ==> Append(o, x).list[k] == o.list[k]
  {
  }

  // ----- subscripts -----

  /**
   * `blListItem`: only `num < 0` and `num > lsize` are rejected, so
   * `num == lsize` reaches the slice index and panics.
   */
  function Item(o: Obj, num: int64): (r: Outcome<Ref>)
    requires o.ListObj?
    ensures r.Done? || r.Error? || r.Fault?
  {
    if num > o.lsize || num < 0 then Error(SUBSCRIPT_RANGE)
    else if num >= |o.list| then Fault(OUT_OF_RANGE)
    else Done(o.list[num])
  }

  /** `blListAssItem`: the same bounds test, then slot `num` is overwritten. */
  function AssItem(o: Obj, value: Ref, num: int64): (r: Outcome<Obj>)
    requires o.ListObj?
    ensures r.Done? || r.Error? || r.Fault?
  {
    if num > o.lsize || num < 0 then Error(SUBSCRIPT_RANGE)
    else if num >= |o.list| then Fault(OUT_OF_RANGE)
    else Done(ListObj(o.list[num := value], o.lsize))
  }

  /**
   * On a consistent list: indices `0..lsize-1` read the slot, `lsize`
   * itself slips past the bounds test and panics, all others are rejected.
   */
  lemma ItemBounds(o: Obj, num: int64)
    requires IsList(o)
    ensures 0 <= num < o.lsize ==> Item(o, num) == Done(o.list[num])
    ensures num == o.lsize ==> Item(o, num) == Fault(OUT_OF_RANGE)
    ensures (num < 0 || num > o.lsize) ==> Item(o, num) == Error(SUBSCRIPT_RANGE)
  {
  }

  /** An accepted store overwrites exactly slot `num`; `num == lsize` panics like the read. */
  lemma AssItemOverwrites(o: Obj, value: Ref, num: int64)
    requires IsList(o)
    ensures 0 <= num < o.lsize ==>
      (AssItem(o, value, num).Done? && IsList(AssItem(o, value, num).value)
       && AssItem(o, value, num).value.list[num] == value
       && forall k :: 0 <= k < o.lsize && k != num ==> AssItem(o, value, num).value.list[k] == o.list[k])
    ensures num == o.lsize ==> AssItem(o, value, num) == Fault(OUT_OF_RANGE)
    ensures (num < 0 || num > o.lsize) ==> AssItem(o, value, num) == Error(SUBSCRIPT_RANGE)
  {
  }

  /** A read after a store at the same accepted index gives the stored reference. */
  lemma ItemAfterAssItem(o: Obj, value: Ref, num: int64)
    requires IsList(o) && 0 <= num < o.lsize
    ensures Item(AssItem(o, value, num).value, num) == Done(value)
  {
  }

  /** `blListSize`. */
  function Size(o: Obj): int
    requires o.ListObj?
  {
    o.lsize
  }

  /** `blListEvalCond`: a list is true when its size is positive. */
  predicate EvalCond(o: Obj)
    requires o.ListObj?
  {
    o.lsize > 0
  }

  // ----- repetition -----

  /** `size` slots cycling through the list: slot `k` holds element `k mod len(list)`. */
  function Cycle(list: seq<Ref>, size: nat): (r: seq<Ref>)
    requires size == 0 || |list| > 0
    ensures |r| == size
    ensures forall k :: 0 <= k < size ==> r[k] == list[k % |list|]
  {
    seq(size, k requires 0 <= k < size => list[k % |list|])
  }

  /**
   * `blListRepeat`: a non-Int multiplier fails, 1 gives the list itself
   * (`None`), and otherwise `size = lsize*n` (wrapping as a Go int) is checked
   * against `LIST_MAX`; a negative size makes `NewBlList` panic.
   */
  function Repeat(o: Obj, count: Option<int64>): (r: Outcome<Option<Obj>>)
    requires IsList(o)
    ensures r.Done? && r.value.Some? ==> IsList(r.value.value)
  {
    if count.None? then Error(NON_INT_REPEAT)
    else if count.value == 1 then Done(None)
    else
      var size := Wrap64(o.lsize * count.value);
      if size > LIST_MAX then Error(TOO_LARGE)
      else if size < 0 then Fault(MAKESLICE)
      else Done(Some(ListObj(Cycle(o.list, size), size)))
  }

  /**
   * Without wrap-around: `n` copies for `0 <= n` within `LIST_MAX`, a panic
   * for negative `n` on a non-empty list, and the size error past `LIST_MAX`.
   */
  lemma RepeatMeaning(o: Obj, n: int64)
    requires IsList(o) && n != 1 && INT64_MIN <= o.lsize * n <= INT64_MAX
    ensures o.lsize * n > LIST_MAX ==> Repeat(o, Some(n)) == Error(TOO_LARGE)
    ensures n < 0 && o.lsize > 0 ==> Repeat(o, Some(n)) == Fault(MAKESLICE)
    ensures 0 <= n && o.lsize * n <= LIST_MAX ==>
      Repeat(o, Some(n)).Done? && Repeat(o, Some(n)).value.Some?
      && IsList(Repeat(o, Some(n)).value.value)
      && |Repeat(o, Some(n)).value.value.list| == o.lsize * n
      && forall k :: 0 <= k < o.lsize * n ==> Repeat(o, Some(n)).value.value.list[k] == o.list[k % o.lsize]
  {
    if n < 0 && o.lsize > 0 {
      assert o.lsize * n < 0 by {
        assert o.lsize * n == -(o.lsize * (-(n as int)));
        Bits.MulAtLeast(-(n as int), o.lsize);
      }
    }
  }

  lemma ModOffset(i: nat, d: nat, m: nat)
    requires m > 0 && i % m == 0 && d < m
    ensures (i + d) % m == d
  {
    Bits.DivUnique(i + d, m, i / m, d);
  }

  /** `copy(dst[at:], src)`: as many elements as fit, the rest of `dst` untouched. */
  method CopyInto(dst: array<Ref>, at: nat, src: seq<Ref>)
    requires at <= dst.Length
    modifies dst
    ensures forall k :: 0 <= k < dst.Length ==>
      dst[k] == if at <= k < at + |src| then src[k - at] else old(dst[k])
  {
    var j := 0;
    while j < |src| && at + j < dst.Length
      invariant 0 <= j <= |src| && at + j <= dst.Length
      invariant forall k :: 0 <= k < dst.Length ==>
        dst[k] == if at <= k < at + j then src[k - at] else old(dst[k])
    {
      dst[at + j] := src[j];
      j := j + 1;
    }
  }

  /** The copying loop of `blListRepeat`: one `copy` every `len(list)` slots. */
  method RepeatLoop(list: seq<Ref>, size: nat) returns (r: seq<Ref>)
    requires size == 0 || |list| > 0
    ensures r == Cycle(list, size)
  {
    var a := new Ref[size](_ => Null);
    var i := 0;
    while i < size
      invariant |list| > 0 ==> i % |list| == 0
      invariant forall k :: 0 <= k < i && k < size ==> a[k] == list[k % |list|]
      decreases size - i
    {
      CopyInto(a, i, list);
      forall k | i <= k < i + |list| && k < size
        ensures a[k] == list[k % |list|]
      {
        ModOffset(i, k - i, |list|);
      }
      ModOffset(i, 0, |list|);
      assert (i + |list|) % |list| == 0 by {
        Bits.DivUnique(i + |list|, |list|, i / |list| + 1, 0);
      }
      i := i + |list|;
    }
    return a[..];
  }

  // ----- construction and methods -----

  /**
   * `blListInit`: the format `"|o"` asks for exactly two arguments and stores
   * neither, so `arg` stays nil and the result is always an empty list.
   */
  function Init(args: seq<Ref>, objs: seq<Obj>): (r: Outcome<Obj>)
    ensures r.Done? || r.Error?
  {
    match ParseArgumentsSpec("|o", args, objs)
    case Failure(m) => Error(m)
    case Ok(_) => Done(ListObj([], 0))
  }

  lemma InitMeaning(args: seq<Ref>, objs: seq<Obj>)
    ensures Init(args, objs).Done? <==> |args| == 2
    ensures Init(args, objs).Done? ==> Init(args, objs).value == ListObj([], 0)
    ensures |args| != 2 ==> Init(args, objs) == Error(MismatchMessage(2, |args|))
  {
    ParseArgumentsMeaning("|o", args, objs);
  }

  /** The list object behind a method's receiver; any other receiver fails the type assertion. */
  function SelfList(self: Ref, objs: seq<Obj>): Outcome<Obj>
  {
    match Deref(objs, self)
    case Some(ListObj(l, n)) => Done(ListObj(l, n))
    case _ => Fault(BAD_ASSERTION)
  }

  /**
   * `append`: the format `"o"` asks for one argument and stores nothing, so
   * the slot added at the end holds Go nil.
   */
  function AppendMethod(self: Ref, args: seq<Ref>, objs: seq<Obj>): (r: Outcome<Obj>)
  {
    match ParseArgumentsSpec("o", args, objs)
    case Failure(m) => Error(m)
    case Ok(_) =>
      match SelfList(self, objs)
      case Done(o) => Done(Append(o, Null))
      case _ => Fault(BAD_ASSERTION)
  }

  /** `prepend`: the same, with the nil slot placed first. */
  function PrependMethod(self: Ref, args: seq<Ref>, objs: seq<Obj>): (r: Outcome<Obj>)
  {
    match ParseArgumentsSpec("o", args, objs)
    case Failure(m) => Error(m)
    case Ok(_) =>
      match SelfList(self, objs)
      case Done(o) => Done(ListObj([Null] + o.list, o.lsize + 1))
      case _ => Fault(BAD_ASSERTION)
  }

  /** `insert`: format `"oi"`; slot `pos` is overwritten with the (never filled) object. */
  function InsertMethod(self: Ref, args: seq<Ref>, objs: seq<Obj>): (r: Outcome<Obj>)
  {
    match ParseArgumentsSpec("oi", args, objs)
    case Failure(m) => Error(m)
    case Ok(vals) =>
      match SelfList(self, objs)
      case Done(o) =>
        var pos := vals[1].i;
        if pos < 0 || pos >= o.lsize then Error(POSITION_RANGE)
        else if pos >= |o.list| then Fault(OUT_OF_RANGE)
        else Done(ListObj(o.list[pos := Null], o.lsize))
      case _ => Fault(BAD_ASSERTION)
  }

  /** `trunc`: an empty slice and a zero size. */
  function TruncMethod(self: Ref, objs: seq<Obj>): (r: Outcome<Obj>)
    ensures r.Done? ==> IsList(r.value) && r.value.lsize == 0
  {
    match SelfList(self, objs)
    case Done(_) => Done(ListObj([], 0))
    case _ => Fault(BAD_ASSERTION)
  }

  /** The list reversed: element `k` is old element `lsize-1-k`. */
  function Reversed(list: seq<Ref>): (r: seq<Ref>)
    ensures |r| == |list|
    ensures forall k :: 0 <= k < |list| ==> r[k] == list[|list| - 1 - k]
  {
    seq(|list|, k requires 0 <= k < |list| => list[|list| - 1 - k])
  }

  /** Reversing twice gives the list back. */
  lemma ReversedTwice(list: seq<Ref>)
    ensures Reversed(Reversed(list)) == list
  {
  }

  /** `reverse`: a fresh slice of `lsize` slots filled from the last element down. */
  function ReverseMethod(self: Ref, objs: seq<Obj>): (r: Outcome<Obj>)
  {
    match SelfList(self, objs)
    case Done(o) =>
      if !IsList(o) then Fault(if o.lsize < 0 then MAKESLICE else OUT_OF_RANGE)
      else Done(ListObj(Reversed(o.list), o.lsize))
    case _ => Fault(BAD_ASSERTION)
  }

  /** The reversing loop: `j` counts up while `i` counts down. */
  method ReverseLoop(list: seq<Ref>) returns (r: seq<Ref>)
    ensures r == Reversed(list)
  {
    var a := new Ref[|list|](_ => Null);
    var j := 0;
    var i := |list| - 1;
    while i >= 0
      invariant -1 <= i < |list| && j == |list| - 1 - i
      invariant forall k :: 0 <= k < j ==> a[k] == list[|list| - 1 - k]
    {
      a[j] := list[i];
      j := j + 1;
      i := i - 1;
    }
    return a[..];
  }

  /**
   * The list methods keep `lsize == len(list)`: append and prepend add one
   * slot, insert overwrites one, trunc empties the list and reverse keeps
   * its size.
   */
  lemma MethodsKeepSize(self: Ref, args: seq<Ref>, objs: seq<Obj>)
    requires Deref(objs, self).Some? && IsList(Deref(objs, self).value)
    ensures var o := Deref(objs, self).value;
      && (AppendMethod(self, args, objs).Done? ==> AppendMethod(self, args, objs).value == ListObj(o.list + [Null], o.lsize + 1))
      && (PrependMethod(self, args, objs).Done? ==> PrependMethod(self, args, objs).value == ListObj([Null] + o.list, o.lsize + 1))
      && (InsertMethod(self, args, objs).Done? ==>
            (IsList(InsertMethod(self, args, objs).value) && InsertMethod(self, args, objs).value.lsize == o.lsize))
      && (ReverseMethod(self, objs).Done? && IsList(ReverseMethod(self, objs).value)
           && ReverseMethod(self, objs).value.list == Reversed(o.list))
    ensures AppendMethod(self, args, objs).Done? <==> |args| == 1
    ensures PrependMethod(self, args, objs).Done? <==> |args| == 1
  {
    ParseArgumentsMeaning("o", args, objs);
  }

  /**
   * `insert` succeeds exactly when it gets two arguments, the second an Int
   * inside `0..lsize-1`, and then overwrites that slot with nil.
   */
  lemma InsertMeaning(self: Ref, args: seq<Ref>, objs: seq<Obj>)
    requires Deref(objs, self).Some? && IsList(Deref(objs, self).value)
    ensures InsertMethod(self, args, objs).Done? <==>
      |args| == 2 && Deref(objs, args[1]).Some? && Deref(objs, args[1]).value.IntObj?
      && 0 <= Deref(objs, args[1]).value.ival < Deref(objs, self).value.lsize
    ensures InsertMethod(self, args, objs).Done? ==>
      InsertMethod(self, args, objs).value.list
        == Deref(objs, self).value.list[Deref(objs, args[1]).value.ival := Null]
  {
    ParseArgumentsMeaning("oi", args, objs);
    if |args| == 2 {
      assert Accepts("oi"[0], args[0], objs);
      assert "oi"[1] == 'i';
    }
  }
}
