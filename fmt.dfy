/**
  Rust's `format!` over a `concat!` of string literals, reduced to what the
  diagnostic needs: a template is a sequence of literal pieces and holes, and
  each hole takes the next already-rendered argument in order.
*/
module Fmt {

  datatype Piece = Lit(text: string) | Hole

  function Holes(t: seq<Piece>): nat {
    if t == [] then 0 else (if t[0].Hole? then 1 else 0) + Holes(t[1..])
  }

  function Format(t: seq<Piece>, args: seq<string>): string
    requires Holes(t) == |args|
  {
    if t == [] then ""
    else match t[0]
      case Lit(s) => s + Format(t[1..], args)
      case Hole => args[0] + Format(t[1..], args[1..])
  }

  lemma {:induction false} HolesConcat(a: seq<Piece>, b: seq<Piece>)
    ensures Holes(a + b) == Holes(a) + Holes(b)
  {
    if a != [] {
      assert (a + b)[0] == a[0] && (a + b)[1..] == a[1..] + b;
      HolesConcat(a[1..], b);
    } else {
      assert a + b == b;
    }
  }

  /** `concat!` then `format!` is `format!` on each part, with the arguments split between them. */
  lemma {:induction false} FormatConcat(a: seq<Piece>, b: seq<Piece>, args: seq<string>)
    requires Holes(a) + Holes(b) == |args|
    ensures Holes(a + b) == |args|
    ensures Format(a + b, args) == Format(a, args[..Holes(a)]) + Format(b, args[Holes(a)..])
  {
    HolesConcat(a, b);
    if a == [] {
      assert a + b == b;
    } else {
      assert (a + b)[0] == a[0] && (a + b)[1..] == a[1..] + b;
      HolesConcat(a[1..], b);
      match a[0]
      case Lit(s) =>
        FormatConcat(a[1..], b, args);
      case Hole =>
        FormatConcat(a[1..], b, args[1..]);
        assert args[1..][..Holes(a[1..])] == args[..Holes(a)][1..];
        assert args[1..][Holes(a[1..])..] == args[Holes(a)..];
    }
  }

  lemma ConcatAssoc(a: string, b: string, c: string)
    ensures a + (b + c) == a + b + c
  {
  }

  lemma FormatLitFirst(s: string, rest: seq<Piece>, args: seq<string>)
    requires Holes(rest) == |args|
    ensures Holes([Lit(s)] + rest) == |args|
    ensures Format([Lit(s)] + rest, args) == s + Format(rest, args)
  {
    assert ([Lit(s)] + rest)[1..] == rest;
  }

  lemma FormatHoleFirst(rest: seq<Piece>, args: seq<string>)
    requires |args| > 0 && Holes(rest) == |args| - 1
    ensures Holes([Hole] + rest) == |args|
    ensures Format([Hole] + rest, args) == args[0] + Format(rest, args[1..])
  {
    assert ([Hole] + rest)[1..] == rest;
  }

  /** `format!` over four concatenated template parts, the first taking three arguments and the next two one each. */
  lemma FormatFourParts(l1: seq<Piece>, l2: seq<Piece>, l3: seq<Piece>, l4: seq<Piece>, args: seq<string>,
                        t1: string, t2: string, t3: string, t4: string)
    requires Holes(l1) == 3 && Holes(l2) == 1 && Holes(l3) == 1 && Holes(l4) + 5 == |args|
    requires Format(l1, args[..3]) == t1 && Format(l2, args[3..4]) == t2
    requires Format(l3, args[4..5]) == t3 && Format(l4, args[5..]) == t4
    ensures Holes(l1 + l2 + l3 + l4) == |args|
    ensures Format(l1 + l2 + l3 + l4, args) == t1 + t2 + t3 + t4
  {
    HolesConcat(l1, l2);
    HolesConcat(l1 + l2, l3);
    FormatConcat(l1 + l2 + l3, l4, args);
    var a5 := args[..5];
    FormatConcat(l1 + l2, l3, a5);
    var a4 := a5[..4];
    FormatConcat(l1, l2, a4);
    assert a4[..3] == args[..3] && a4[3..] == args[3..4] && a5[4..] == args[4..5];
  }
}
