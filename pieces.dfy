/**
 * An element rendered as text is built from pieces: a heading, a location
 * line, an optional documentation line, and so on. The serialisers only keep
 * the text; here each piece also carries the role it plays, so that contracts
 * can say which pieces a rendering holds and in which order, without reading
 * the text back.
 */
module Pieces {

  /** The roles, in the order every serialiser emits them. */
  datatype Role = FileLine | Heading | Location | Description | Documentation | Arguments | Returns | Content | Code

  datatype Piece = Piece(role: Role, text: string)

  function Rank(r: Role): nat
  {
    match r
    case FileLine => 0
    case Heading => 1
    case Location => 2
    case Description => 3
    case Documentation => 4
    case Arguments => 5
    case Returns => 6
    case Content => 7
    case Code => 8
  }

  function Roles(ps: seq<Piece>): (r: seq<Role>)
    ensures |r| == |ps|
    ensures forall i :: 0 <= i < |ps| ==> r[i] == ps[i].role
  {
    seq(|ps|, i requires 0 <= i < |ps| => ps[i].role)
  }

  function Texts(ps: seq<Piece>): (r: seq<string>)
    ensures |r| == |ps|
    ensures forall i :: 0 <= i < |ps| ==> r[i] == ps[i].text
  {
    seq(|ps|, i requires 0 <= i < |ps| => ps[i].text)
  }

  /** Each role at most once, in the fixed order. */
  predicate InRoleOrder(ps: seq<Piece>)
  {
    forall i, j :: 0 <= i < j < |ps| ==> Rank(ps[i].role) < Rank(ps[j].role)
  }

  /** A piece for `role` when `present` holds, nothing otherwise. */
  function Optional(present: bool, role: Role, text: string): seq<Piece>
  {
    if present then [Piece(role, text)] else []
  }

  lemma OptionalSpec(present: bool, role: Role, text: string)
    ensures var r := Optional(present, role, text);
      && |r| <= 1
      && (role in Roles(r) <==> present)
      && forall i :: 0 <= i < |r| ==> r[i].role == role
  {
    if present {
      assert Roles(Optional(present, role, text))[0] == role;
    }
  }

  /** Appending pieces of a later role keeps the order. */
  lemma OrderedAppend(ps: seq<Piece>, qs: seq<Piece>)
    requires InRoleOrder(ps) && InRoleOrder(qs)
    requires forall i, j :: 0 <= i < |ps| && 0 <= j < |qs| ==> Rank(ps[i].role) < Rank(qs[j].role)
    ensures InRoleOrder(ps + qs)
  {
  }

  /** The roles of a concatenation. */
  lemma RolesAppend(ps: seq<Piece>, qs: seq<Piece>)
    ensures Roles(ps + qs) == Roles(ps) + Roles(qs)
  {
  }

  /** The largest rank among the pieces is below `r`. */
  predicate RanksBelow(ps: seq<Piece>, r: Role)
  {
    forall i :: 0 <= i < |ps| ==> Rank(ps[i].role) < Rank(r)
  }

  /**
   * Appending an optional piece whose role ranks above every present one
   * keeps the order, and adds its role exactly when it is present.
   */
  lemma AppendOptional(ps: seq<Piece>, present: bool, role: Role, text: string)
    requires InRoleOrder(ps) && RanksBelow(ps, role)
    ensures var qs := ps + Optional(present, role, text);
      && InRoleOrder(qs)
      && Roles(qs) == Roles(ps) + (if present then [role] else [])
      && forall r :: Rank(role) < Rank(r) ==> RanksBelow(qs, r)
  {
    var qs := ps + Optional(present, role, text);
    RolesAppend(ps, Optional(present, role, text));
    if present {
      assert Roles([Piece(role, text)]) == [role];
    }
  }

  /** The texts after appending an optional piece: its text is added exactly when it is present. */
  lemma TextsOptional(ps: seq<Piece>, present: bool, role: Role, text: string)
    ensures Texts(ps + Optional(present, role, text)) == Texts(ps) + (if present then [text] else [])
  {
  }
}
