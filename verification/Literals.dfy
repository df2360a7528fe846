/** Literals on inports: a link with no source actor becomes a link from a constant actor of its own
    (analyzer.py:128-152), and a program the checker accepts stays acceptable. */
module Literals {
  import opened CalvinScript

  /** The source actor of a link whose source is a literal. */
  const NONE: string := ""

  predicate Letter(c: char) { 'a' <= c <= 'z' || 'A' <= c <= 'Z' }

  predicate Identifier(a: string) {
    a != "" && Letter(a[0]) && forall i :: 0 <= i < |a| ==> Letter(a[i]) || '0' <= a[i] <= '9' || a[i] == '_'
  }

  function Decimal(n: nat): (r: string)
    ensures r != [] && forall i :: 0 <= i < |r| ==> '0' <= r[i] <= '9'
  {
    var d := (n % 10 + 48) as char;
    if n < 10 then [d] else Decimal(n / 10) + [d]
  }

  lemma {:induction false} DecimalInjective(m: nat, n: nat)
    requires Decimal(m) == Decimal(n)
    ensures m == n
  {
    var a, b := Decimal(m), Decimal(n);
    assert a[|a| - 1] == (m % 10 + 48) as char && b[|b| - 1] == (n % 10 + 48) as char;
    assert m < 10 <==> |a| == 1;
    assert n < 10 <==> |b| == 1;
    if m >= 10 {
      assert a[..|a| - 1] == Decimal(m / 10) && b[..|b| - 1] == Decimal(n / 10);
      DecimalInjective(m / 10, n / 10);
    }
  }

  const LITERAL := "_literal_const_"

  function LiteralName(k: nat): string { LITERAL + Decimal(k) }

  lemma LiteralNameFacts(k: nat)
    ensures PlainName(LiteralName(k)) && LiteralName(k) != NONE && LiteralName(k) != SELF
    ensures LiteralName(k)[0] == '_'
  {
    var a := LiteralName(k);
    assert forall i :: 0 <= i < |a| ==> a[i] == if i < |LITERAL| then LITERAL[i] else Decimal(k)[i - |LITERAL|];
    assert ':' !in LITERAL && '.' !in LITERAL;
    assert SELF[0] == '.';
  }

  lemma LiteralNameInjective(j: nat, k: nat)
    requires LiteralName(j) == LiteralName(k)
    ensures j == k
  {
    assert LiteralName(j)[|LITERAL|..] == Decimal(j) && LiteralName(k)[|LITERAL|..] == Decimal(k);
    DecimalInjective(j, k);
  }

  lemma IdentifierFacts(a: string)
    requires Identifier(a)
    ensures PlainName(a) && a != NONE && a != SELF
    ensures forall k: nat :: a != LiteralName(k)
  {
    assert SELF[0] == '.';
    forall k: nat ensures a != LiteralName(k) { LiteralNameFacts(k); }
  }

  // ------------------------------------------------------------ the expansion

  /** How many of the first i links have a literal source. */
  function Implicits(cs: seq<Conn>, i: nat): nat
    requires i <= |cs|
  {
    if i == 0 then 0 else Implicits(cs, i - 1) + if cs[i - 1].src == NONE then 1 else 0
  }

  function Explicit(cs: seq<Conn>, i: nat): Conn
    requires i < |cs|
  {
    if cs[i].src != NONE then cs[i]
    else Conn(LiteralName(Implicits(cs, i + 1)), "token", cs[i].dst, cs[i].dstPort)
  }

  function ExplicitConns(cs: seq<Conn>): (r: seq<Conn>)
    ensures |r| == |cs| && forall i :: 0 <= i < |cs| ==> r[i] == Explicit(cs, i)
  {
    seq(|cs|, i requires 0 <= i < |cs| => Explicit(cs, i))
  }

  const CONSTANT: Instance := Leaf([], ["token"])

  function Constants(n: nat): (r: seq<Decl>)
    ensures |r| == n && forall i :: 0 <= i < n ==> r[i] == Decl(LiteralName(i + 1), CONSTANT)
  {
    seq(n, i requires 0 <= i < n => Decl(LiteralName(i + 1), CONSTANT))
  }

  /** One structure after expand_literals. */
  function Expanded(s: Structure): Structure {
    Structure(s.actors + Constants(Implicits(s.conns, |s.conns|)), ExplicitConns(s.conns))
  }

  function ElabDecl(d: Decl): (r: Decl)
    ensures r.name == d.name && r.kind.ins == d.kind.ins && r.kind.outs == d.kind.outs
    ensures r.kind.Comp? <==> d.kind.Comp?
    decreases d
  {
    if d.kind.Leaf? then d else d.(kind := d.kind.(body := Elab(d.kind.body)))
  }

  function ElabDecls(s: Structure): (r: seq<Decl>)
    ensures |r| == |s.actors| && forall i :: 0 <= i < |r| ==> r[i] == ElabDecl(s.actors[i])
    decreases s, 0
  {
    seq(|s.actors|, i requires 0 <= i < |s.actors| => ElabDecl(s.actors[i]))
  }

  /** The program with every structure in it expanded. */
  function Elab(s: Structure): Structure
    decreases s, 1
  {
    Expanded(Structure(ElabDecls(s), s.conns))
  }

  // ------------------------------------------------------------ facts

  lemma {:induction false} ImplicitsGrow(cs: seq<Conn>, i: nat, j: nat)
    requires i <= j <= |cs|
    ensures Implicits(cs, i) <= Implicits(cs, j)
    ensures i < j && cs[j - 1].src == NONE ==> Implicits(cs, i) < Implicits(cs, j)
    decreases j
  {
    if i < j { ImplicitsGrow(cs, i, j - 1); }
  }

  lemma {:induction false} NoImplicits(cs: seq<Conn>, i: nat)
    requires i <= |cs| && forall k :: 0 <= k < |cs| ==> cs[k].src != NONE
    ensures Implicits(cs, i) == 0
  {
    if i > 0 { NoImplicits(cs, i - 1); }
  }

  /** A second instance of a component finds its definition expanded already. */
  lemma ExpandedOnce(s: Structure)
    ensures Expanded(Expanded(s)) == Expanded(s)
  {
    var e := Expanded(s);
    forall k | 0 <= k < |e.conns| ensures e.conns[k].src != NONE {
      LiteralNameFacts(Implicits(s.conns, k + 1));
    }
    NoImplicits(e.conns, |e.conns|);
    assert ExplicitConns(e.conns) == e.conns;
    assert e.actors + [] == e.actors;
  }

  /** The k-th constant is the source of a link. */
  lemma {:induction false} ImplicitAt(cs: seq<Conn>, i: nat, k: nat) returns (j: nat)
    requires i <= |cs| && 0 < k <= Implicits(cs, i)
    ensures j < i && cs[j].src == NONE && Implicits(cs, j + 1) == k
    decreases i
  {
    if k == Implicits(cs, i) && cs[i - 1].src == NONE {
      j := i - 1;
    } else {
      j := ImplicitAt(cs, i - 1, k);
    }
  }

  // ------------------------------------------------------------ what the checker sees

  /** undeclared_actors finds nothing; a literal source needs no declaration. */
  predicate SourcesDeclared(s: Structure) {
    forall c :: c in s.conns ==>
      (c.src == SELF || c.src == NONE || Declared(s, c.src)) && (c.dst == SELF || Declared(s, c.dst))
  }

  predicate IdentifierNames(s: Structure) {
    && (forall i :: 0 <= i < |s.actors| ==> Identifier(s.actors[i].name))
    && (forall i, j :: 0 <= i < j < |s.actors| ==> s.actors[i].name != s.actors[j].name)
  }

  /** The checker reports no error for the script as parsed, literals included. */
  predicate SourceAccepted(s: Structure)
    decreases s
  {
    && IdentifierNames(s) && SourcesDeclared(s)
    && forall i :: 0 <= i < |s.actors| ==>
         && ActorLinked(s, s.actors[i])
         && (s.actors[i].kind.Comp? ==>
               && BoundaryLinked(s.actors[i].kind.body, s.actors[i].kind.ins, s.actors[i].kind.outs)
               && SourceAccepted(s.actors[i].kind.body))
  }

  lemma {:induction false} SameIntoCount(s: Structure, e: Structure, i: nat, a: string, q: string)
    requires e.conns == ExplicitConns(s.conns) && i <= |s.conns|
    ensures IntoCount(e, i, a, q) == IntoCount(s, i, a, q)
  {
    if i > 0 { SameIntoCount(s, e, i - 1, a, q); }
  }

  lemma SameOutOf(s: Structure, e: Structure, a: string, q: string)
    requires e.conns == ExplicitConns(s.conns) && a != NONE && OutOf(s, a, q)
    ensures OutOf(e, a, q)
  {
    var i :| 0 <= i < |s.conns| && s.conns[i].src == a && s.conns[i].srcPort == q;
    assert e.conns[i] == s.conns[i];
  }

  /** Links survive expansion, except that a literal source is now a constant. */
  lemma ConnOrigin(s: Structure, e: Structure, c: Conn)
    requires e.conns == ExplicitConns(s.conns) && c in e.conns
    ensures exists i :: 0 <= i < |s.conns| && c == Explicit(s.conns, i)
  {
    var i :| 0 <= i < |e.conns| && e.conns[i] == c;
    assert c == Explicit(s.conns, i);
  }

  lemma SameBoundary(s: Structure, e: Structure, ins: seq<string>, outs: seq<string>)
    requires e.conns == ExplicitConns(s.conns) && BoundaryLinked(s, ins, outs)
    ensures BoundaryLinked(e, ins, outs)
  {
    hide IntoCount, OutOf;
    assert SELF != NONE by { assert |SELF| == 1; }
    forall c | c in e.conns
      ensures (c.src == SELF ==> c.srcPort in ins) && (c.dst == SELF ==> c.dstPort in outs)
      ensures !(c.src == SELF && c.dst == SELF)
    {
      ConnOrigin(s, e, c);
      var i :| 0 <= i < |s.conns| && c == Explicit(s.conns, i);
      LiteralNameFacts(Implicits(s.conns, i + 1));
      assert s.conns[i] in s.conns;
    }
    forall q | q in ins ensures OutOf(e, SELF, q) { SameOutOf(s, e, SELF, q); }
    forall q | q in outs ensures IntoCount(e, |e.conns|, SELF, q) == 1 {
      SameIntoCount(s, e, |s.conns|, SELF, q);
    }
  }

  lemma SameActorLinked(s: Structure, e: Structure, d: Decl, d': Decl)
    requires e.conns == ExplicitConns(s.conns) && ActorLinked(s, d) && Identifier(d.name)
    requires d'.name == d.name && d'.kind.ins == d.kind.ins && d'.kind.outs == d.kind.outs
    ensures ActorLinked(e, d')
  {
    hide IntoCount, OutOf, Identifier;
    IdentifierFacts(d.name);
    forall c | c in e.conns
      ensures (c.dst == d.name ==> c.dstPort in d.kind.ins) && (c.src == d.name ==> c.srcPort in d.kind.outs)
    {
      ConnOrigin(s, e, c);
      var i :| 0 <= i < |s.conns| && c == Explicit(s.conns, i);
      assert s.conns[i] in s.conns;
    }
    forall q | q in d.kind.ins ensures IntoCount(e, |e.conns|, d.name, q) == 1 {
      SameIntoCount(s, e, |s.conns|, d.name, q);
    }
    forall q | q in d.kind.outs ensures OutOf(e, d.name, q) { SameOutOf(s, e, d.name, q); }
  }

  lemma ConstantLinked(s: Structure, e: Structure, k: nat)
    requires e.conns == ExplicitConns(s.conns) && 0 < k <= Implicits(s.conns, |s.conns|)
    requires IdentifierNames(s) && SourcesDeclared(s)
    ensures ActorLinked(e, Decl(LiteralName(k), CONSTANT))
  {
    var n := LiteralName(k);
    LiteralNameFacts(k);
    forall c | c in e.conns ensures c.dst != n && (c.src == n ==> c.srcPort == "token") {
      ConnOrigin(s, e, c);
      var i :| 0 <= i < |s.conns| && c == Explicit(s.conns, i);
      assert s.conns[i] in s.conns;
      NotDeclared(s, k);
    }
    var j := ImplicitAt(s.conns, |s.conns|, k);
    assert e.conns[j] == Explicit(s.conns, j);
    assert OutOf(e, n, "token");
  }

  lemma NotDeclared(s: Structure, k: nat)
    requires IdentifierNames(s)
    ensures !Declared(s, LiteralName(k))
  {
    var i := IndexOf(s.actors, LiteralName(k));
    if i >= 0 { IdentifierFacts(s.actors[i].name); }
  }

  lemma DeclaredIn(ds: seq<Decl>, a: string, i: nat)
    requires i < |ds| && ds[i].name == a
    ensures IndexOf(ds, a) >= 0
  {
  }

  lemma ElabUnfolds(s: Structure)
    ensures Elab(s) == Expanded(Structure(ElabDecls(s), s.conns))
  {
  }

  /** Each actor of the expanded structure is an elaborated one or a constant. */
  lemma ExpandedActors(s: Structure, i: nat)
    requires i < |Elab(s).actors|
    ensures |Elab(s).actors| == |s.actors| + Implicits(s.conns, |s.conns|)
    ensures i < |s.actors| ==> Elab(s).actors[i] == ElabDecl(s.actors[i])
    ensures i >= |s.actors| ==> Elab(s).actors[i] == Decl(LiteralName(i - |s.actors| + 1), CONSTANT)
  {
    hide Elab, ElabDecls, ElabDecl, LiteralName, Implicits, Explicit;
    ElabUnfolds(s);
  }

  lemma ElabProper(s: Structure)
    requires IdentifierNames(s)
    ensures ProperNames(Elab(s))
  {
    hide Identifier, PlainName, LiteralName;
    var e := Elab(s);
    forall i | 0 <= i < |e.actors| ensures PlainName(e.actors[i].name) {
      ExpandedActors(s, i);
      if i < |s.actors| { IdentifierFacts(s.actors[i].name); } else { LiteralNameFacts(i - |s.actors| + 1); }
    }
    forall i, j | 0 <= i < j < |e.actors| ensures e.actors[i].name != e.actors[j].name {
      ExpandedActors(s, i);
      ExpandedActors(s, j);
      if i < |s.actors| {
        IdentifierFacts(s.actors[i].name);
      } else if e.actors[i].name == e.actors[j].name {
        LiteralNameInjective(i - |s.actors| + 1, j - |s.actors| + 1);
      }
    }
  }

  lemma ElabCount(s: Structure)
    ensures |Elab(s).actors| == |s.actors| + Implicits(s.conns, |s.conns|)
  {
    hide Elab, ElabDecls, ElabDecl, LiteralName, Implicits, Explicit;
    ElabUnfolds(s);
  }

  lemma StillDeclared(s: Structure, a: string)
    requires Declared(s, a)
    ensures Declared(Elab(s), a)
  {
    hide Elab;
    var i := IndexOf(s.actors, a);
    ElabCount(s);
    ExpandedActors(s, i);
    DeclaredIn(Elab(s).actors, a, i);
  }

  lemma ConstantDeclared(s: Structure, i: nat)
    requires i < |s.conns| && s.conns[i].src == NONE
    ensures Declared(Elab(s), Explicit(s.conns, i).src)
  {
    hide Elab, LiteralName;
    var k := Implicits(s.conns, i + 1);
    ImplicitsGrow(s.conns, i, i + 1);
    ImplicitsGrow(s.conns, i + 1, |s.conns|);
    ElabCount(s);
    ExpandedActors(s, |s.actors| + k - 1);
    DeclaredIn(Elab(s).actors, LiteralName(k), |s.actors| + k - 1);
  }

  lemma ElabDeclared(s: Structure)
    requires SourcesDeclared(s)
    ensures AllDeclared(Elab(s))
  {
    hide Elab, Declared;
    ElabConns(s);
    var e := Elab(s);
    forall c | c in e.conns
      ensures (c.src == SELF || Declared(e, c.src)) && (c.dst == SELF || Declared(e, c.dst))
    {
      ConnOrigin(s, e, c);
      var i :| 0 <= i < |s.conns| && c == Explicit(s.conns, i);
      assert s.conns[i] in s.conns;
      if c.dst != SELF { StillDeclared(s, c.dst); }
      if s.conns[i].src == NONE {
        ConstantDeclared(s, i);
      } else if c.src != SELF {
        StillDeclared(s, c.src);
      }
    }
  }

  /** What the checker accepts as parsed is accepted with its literals expanded. */
  lemma {:induction false} ElabAccepted(s: Structure)
    requires SourceAccepted(s)
    ensures Accepted(Elab(s))
    decreases s
  {
    hide ActorLinked, BoundaryLinked, ProperNames, AllDeclared, IdentifierNames, SourcesDeclared, Elab, Identifier;
    var e := Elab(s);
    ElabProper(s);
    ElabDeclared(s);
    ElabConns(s);
    forall i | 0 <= i < |e.actors|
      ensures ActorLinked(e, e.actors[i])
      ensures e.actors[i].kind.Comp? ==>
                && BoundaryLinked(e.actors[i].kind.body, e.actors[i].kind.ins, e.actors[i].kind.outs)
                && Accepted(e.actors[i].kind.body)
    {
      ExpandedActors(s, i);
      if i < |s.actors| {
        var d := s.actors[i];
        assert Identifier(d.name) by { NameIsIdentifier(s, i); }
        SameActorLinked(s, e, d, e.actors[i]);
        if d.kind.Comp? {
          ElabConns(d.kind.body);
          SameBoundary(d.kind.body, Elab(d.kind.body), d.kind.ins, d.kind.outs);
          ElabAccepted(d.kind.body);
        }
      } else {
        ConstantLinked(s, e, i - |s.actors| + 1);
      }
    }
  }

  lemma NameIsIdentifier(s: Structure, i: nat)
    requires IdentifierNames(s) && i < |s.actors|
    ensures Identifier(s.actors[i].name)
  {
  }

  lemma ElabConns(s: Structure)
    ensures Elab(s).conns == ExplicitConns(s.conns)
  {
  }
}
