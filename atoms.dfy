/** Push program atoms and the program tree.
    A program is an ordered sequence of atoms; stacks in this model keep
    their top at the END of the sequence. */
module Atoms {

  /** A float value. Floating-point arithmetic is not modelled: a float is
      an opaque token that is only moved between stacks. */
  datatype Float32 = Float32(token: nat)

  /** The zero float, `0.0f`. */
  const FloatZero: Float32 := Float32(0)

  /** An object that can sit in a program or on the exec stack. `InstrRef`
      stands for any other object: an `Instruction` object placed directly
      in a program, identified here by the name it is registered under. The
      dispatcher cannot run it. */
  datatype Atom =
    | Int(i: int)
    | Flt(f: Float32)
    | Name(s: string)
    | Prog(children: seq<Atom>)
    | InstrRef(key: string)

  /** Point count: the atom itself plus, for a nested program, every
      point below it. */
  function Points(a: Atom): (r: nat)
    decreases a
  {
    match a
    case Prog(ch) => 1 + PointsSeq(ch)
    case _ => 1
  }

  /** Total point count of a sequence of atoms. */
  function PointsSeq(s: seq<Atom>): (r: nat)
    decreases s
  {
    if s == [] then 0 else PointsSeq(s[..|s| - 1]) + Points(s[|s| - 1])
  }

  /** A flat sequence holds no nested program. */
  predicate IsFlat(s: seq<Atom>)
  {
    forall i :: 0 <= i < |s| ==> !s[i].Prog?
  }

  /** `s` in reverse order. */
  function Reverse<T>(s: seq<T>): (r: seq<T>)
  {
    if s == [] then [] else Reverse(s[1..]) + [s[0]]
  }

  lemma {:induction false} ReverseAt<T>(s: seq<T>, k: nat)
    requires k < |s|
    ensures |Reverse(s)| == |s|
    ensures Reverse(s)[k] == s[|s| - 1 - k]
  {
    if |s| > 1 {
      if k < |s| - 1 {
        ReverseAt(s[1..], k);
      } else {
        ReverseLength(s[1..]);
      }
    }
  }

  lemma {:induction false} ReverseLength<T>(s: seq<T>)
    ensures |Reverse(s)| == |s|
  {
    if s != [] {
      ReverseLength(s[1..]);
    }
  }

  /** `PushAllReverse`: the children of a program pushed onto a stack from
      last to first, so that the first child ends on top. */
  function PushAllReverse(stack: seq<Atom>, children: seq<Atom>): seq<Atom>
  {
    stack + Reverse(children)
  }

  /** Popping the stack after `PushAllReverse` yields the children in
      program order: the element `k` positions below the top is child `k`,
      and the stack below the children is untouched. */
  lemma PushAllReverseOrder(stack: seq<Atom>, children: seq<Atom>)
    ensures |PushAllReverse(stack, children)| == |stack| + |children|
    ensures PushAllReverse(stack, children)[..|stack|] == stack
    ensures forall k :: 0 <= k < |children| ==>
      PushAllReverse(stack, children)[|stack| + |children| - 1 - k] == children[k]
  {
    ReverseLength(children);
    var r := PushAllReverse(stack, children);
    forall k | 0 <= k < |children|
      ensures r[|stack| + |children| - 1 - k] == children[k]
    {
      ReverseAt(children, |children| - 1 - k);
    }
  }

  /** Appending one atom adds its points. */
  lemma PointsSeqSnoc(s: seq<Atom>, a: Atom)
    ensures PointsSeq(s + [a]) == PointsSeq(s) + Points(a)
  {
    assert (s + [a])[..|s|] == s;
  }

  /** A sequence of `n` non-program atoms has `n` points. */
  lemma {:induction false} FlatPoints(s: seq<Atom>)
    requires IsFlat(s)
    ensures PointsSeq(s) == |s|
  {
    if s != [] {
      FlatPoints(s[..|s| - 1]);
    }
  }
}
