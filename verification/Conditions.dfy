/** Status conditions: the list kept by SetStatusCondition, at most one entry per type. */
module Conditions {
  import opened Wrappers

  datatype Kind = Progressing | Available | Ready | Provisioned

  datatype Truth = True | False | Unknown

  datatype Condition = Condition(kind: Kind, status: Truth, reason: string)

  function Find(cs: seq<Condition>, kind: Kind): Option<Condition> {
    if cs == [] then None
    else if cs[0].kind == kind then Some(cs[0])
    else Find(cs[1..], kind)
  }

  function With(cs: seq<Condition>, c: Condition): seq<Condition> {
    if cs == [] then [c]
    else if cs[0].kind == c.kind then [c] + cs[1..]
    else [cs[0]] + With(cs[1..], c)
  }

  predicate Has(cs: seq<Condition>, kind: Kind, status: Truth) {
    Find(cs, kind).Some? && Find(cs, kind).value.status == status
  }

  predicate OnePerKind(cs: seq<Condition>) {
    forall i, j :: 0 <= i < j < |cs| ==> cs[i].kind != cs[j].kind
  }

  lemma {:induction false} FindWith(cs: seq<Condition>, c: Condition, kind: Kind)
    ensures Find(With(cs, c), kind) == if kind == c.kind then Some(c) else Find(cs, kind)
    decreases cs
  {
    if cs != [] && cs[0].kind != c.kind {
      FindWith(cs[1..], c, kind);
      assert With(cs, c)[1..] == With(cs[1..], c);
    } else if cs != [] {
      assert With(cs, c)[1..] == cs[1..];
    }
  }

  /** Kinds of a list after With: those before, and the new one; so one per kind is kept. */
  lemma {:induction false} WithKeepsOnePerKind(cs: seq<Condition>, c: Condition)
    requires OnePerKind(cs)
    ensures OnePerKind(With(cs, c))
    ensures forall d :: d in With(cs, c) ==> d == c || d in cs
    decreases cs
  {
    if cs != [] && cs[0].kind != c.kind {
      WithKeepsOnePerKind(cs[1..], c);
      forall d | d in With(cs[1..], c)
        ensures d.kind != cs[0].kind
      {
      }
    }
  }

  /** The first entry of a kind is the one found and the one replaced. */
  lemma {:induction false} FirstOfKind(cs: seq<Condition>, c: Condition, i: nat)
    requires i < |cs| && cs[i].kind == c.kind && forall j | 0 <= j < i :: cs[j].kind != c.kind
    ensures Find(cs, c.kind) == Some(cs[i]) && With(cs, c) == cs[i := c]
    decreases cs
  {
    if i > 0 {
      FirstOfKind(cs[1..], c, i - 1);
      assert [cs[0]] + cs[1..][i - 1 := c] == cs[i := c];
    }
  }

  lemma {:induction false} NoneOfKind(cs: seq<Condition>, c: Condition)
    requires forall j | 0 <= j < |cs| :: cs[j].kind != c.kind
    ensures Find(cs, c.kind) == None && With(cs, c) == cs + [c]
    decreases cs
  {
    if cs != [] {
      NoneOfKind(cs[1..], c);
    }
  }

  method FindStatusCondition(cs: seq<Condition>, kind: Kind) returns (r: Option<Condition>)
    ensures r == Find(cs, kind)
  {
    for i := 0 to |cs|
      invariant forall j | 0 <= j < i :: cs[j].kind != kind
    {
      if cs[i].kind == kind {
        FirstOfKind(cs, cs[i], i);
        return Some(cs[i]);
      }
    }
    NoneOfKind(cs, Condition(kind, Unknown, ""));
    r := None;
  }

  /** Updates the entry of its kind where it stands, or appends a new one. */
  method SetStatusCondition(cs: seq<Condition>, c: Condition) returns (r: seq<Condition>)
    ensures r == With(cs, c)
  {
    for i := 0 to |cs|
      invariant forall j | 0 <= j < i :: cs[j].kind != c.kind
    {
      if cs[i].kind == c.kind {
        FirstOfKind(cs, c, i);
        return cs[i := c];
      }
    }
    NoneOfKind(cs, c);
    r := cs + [c];
  }
}
