/** SQL conditions as text: tokens, `OR` below `AND` below parentheses, and evaluation with NULL as Unknown. */
module SqlText {
  import opened Common

  datatype Tri = True | False | Unknown

  function And3(a: Tri, b: Tri): Tri {
    if a == False || b == False then False else if a == True && b == True then True else Unknown
  }

  function Or3(a: Tri, b: Tri): Tri {
    if a == True || b == True then True else if a == False && b == False then False else Unknown
  }

  function Lift(b: bool): Tri { if b then True else False }

  datatype Token<+A> = Open | Close | And | Or | Test(a: A)

  datatype Expr<+A> =
    | Atom(a: A)
    | Paren(e: Expr<A>)
    | Conj(l: Expr<A>, r: Expr<A>)
    | Disj(l: Expr<A>, r: Expr<A>)

  /** Trees the left-associative grammar can produce. */
  predicate IsPrimary<A>(e: Expr<A>)
    decreases e, 0
  {
    match e
    case Atom(_) => true
    case Paren(d) => IsDisjunction(d)
    case _ => false
  }

  predicate IsConjunction<A>(e: Expr<A>)
    decreases e, 1
  {
    if e.Conj? then IsConjunction(e.l) && IsPrimary(e.r) else IsPrimary(e)
  }

  predicate IsDisjunction<A>(e: Expr<A>)
    decreases e, 2
  {
    if e.Disj? then IsDisjunction(e.l) && IsConjunction(e.r) else IsConjunction(e)
  }

  function Print<A>(e: Expr<A>): seq<Token<A>> {
    match e
    case Atom(a) => [Test(a)]
    case Paren(d) => [Open] + Print(d) + [Close]
    case Conj(l, r) => Print(l) + [And] + Print(r)
    case Disj(l, r) => Print(l) + [Or] + Print(r)
  }

  function Eval<A>(e: Expr<A>, val: A -> Tri): Tri {
    match e
    case Atom(a) => val(a)
    case Paren(d) => Eval(d, val)
    case Conj(l, r) => And3(Eval(l, val), Eval(r, val))
    case Disj(l, r) => Or3(Eval(l, val), Eval(r, val))
  }

  // ----- recursive descent -----

  datatype Parsed<+A> = Parsed(e: Expr<A>, rest: seq<Token<A>>)

  function ParsePrimary<A>(t: seq<Token<A>>): (p: Option<Parsed<A>>)
    ensures p.Some? ==> |p.value.rest| < |t|
    decreases |t|, 0
  {
    if t == [] then None
    else match t[0]
      case Test(a) => Some(Parsed(Atom(a), t[1..]))
      case Open =>
        (match ParseDisjunction(t[1..])
         case Some(Parsed(d, rest)) =>
           if rest != [] && rest[0] == Close then Some(Parsed(Paren(d), rest[1..])) else None
         case None => None)
      case _ => None
  }

  function ParseConjunction<A>(t: seq<Token<A>>): (p: Option<Parsed<A>>)
    ensures p.Some? ==> |p.value.rest| < |t|
    decreases |t|, 2
  {
    match ParsePrimary(t)
    case Some(Parsed(e, rest)) => MoreConjuncts(e, rest)
    case None => None
  }

  function MoreConjuncts<A>(e: Expr<A>, t: seq<Token<A>>): (p: Option<Parsed<A>>)
    ensures p.Some? ==> |p.value.rest| <= |t|
    decreases |t|, 1
  {
    if t != [] && t[0] == And then
      match ParsePrimary(t[1..])
      case Some(Parsed(r, rest)) => MoreConjuncts(Conj(e, r), rest)
      case None => None
    else Some(Parsed(e, t))
  }

  function ParseDisjunction<A>(t: seq<Token<A>>): (p: Option<Parsed<A>>)
    ensures p.Some? ==> |p.value.rest| < |t|
    decreases |t|, 4
  {
    match ParseConjunction(t)
    case Some(Parsed(e, rest)) => MoreDisjuncts(e, rest)
    case None => None
  }

  function MoreDisjuncts<A>(e: Expr<A>, t: seq<Token<A>>): (p: Option<Parsed<A>>)
    ensures p.Some? ==> |p.value.rest| <= |t|
    decreases |t|, 3
  {
    if t != [] && t[0] == Or then
      match ParseConjunction(t[1..])
      case Some(Parsed(r, rest)) => MoreDisjuncts(Disj(e, r), rest)
      case None => None
    else Some(Parsed(e, t))
  }

  /** The whole text is one condition; anything else is a syntax error. */
  function Parse<A>(t: seq<Token<A>>): Option<Expr<A>> {
    match ParseDisjunction(t)
    case Some(Parsed(e, rest)) => if rest == [] then Some(e) else None
    case None => None
  }

  // ----- the parser inverts the printer -----

  lemma {:induction false} ParsesPrimary<A>(e: Expr<A>, rest: seq<Token<A>>)
    requires IsPrimary(e)
    ensures ParsePrimary(Print(e) + rest) == Some(Parsed(e, rest))
    decreases e, 0
  {
    var t := Print(e) + rest;
    match e
    case Atom(a) => assert t[1..] == rest;
    case Paren(d) =>
      assert t[1..] == Print(d) + ([Close] + rest);
      ParsesDisjunction(d, [Close] + rest);
      assert ([Close] + rest)[1..] == rest;
  }

  lemma {:induction false} ParsesConjunction<A>(e: Expr<A>, rest: seq<Token<A>>)
    requires IsConjunction(e)
    ensures ParseConjunction(Print(e) + rest) == MoreConjuncts(e, rest)
    decreases e, 1
  {
    if e.Conj? {
      var tail := [And] + Print(e.r) + rest;
      assert Print(e) + rest == Print(e.l) + tail;
      ParsesConjunction(e.l, tail);
      ParsesPrimary(e.r, rest);
      OneMoreConjunct(e.l, e.r, rest);
    } else {
      ParsesPrimary(e, rest);
    }
  }

  lemma {:induction false} OneMoreConjunct<A>(l: Expr<A>, r: Expr<A>, rest: seq<Token<A>>)
    requires ParsePrimary(Print(r) + rest) == Some(Parsed(r, rest))
    ensures MoreConjuncts(l, [And] + Print(r) + rest) == MoreConjuncts(Conj(l, r), rest)
  {
    var tail := [And] + Print(r) + rest;
    assert tail[1..] == Print(r) + rest;
  }

  lemma {:induction false} ParsesDisjunction<A>(e: Expr<A>, rest: seq<Token<A>>)
    requires IsDisjunction(e)
    requires rest == [] || rest[0] != And
    ensures ParseDisjunction(Print(e) + rest) == MoreDisjuncts(e, rest)
    decreases e, 2
  {
    if e.Disj? {
      var tail := [Or] + Print(e.r) + rest;
      assert Print(e) + rest == Print(e.l) + tail;
      ParsesDisjunction(e.l, tail);
      assert tail[1..] == Print(e.r) + rest;
      ParsesConjunction(e.r, rest);
    } else {
      ParsesConjunction(e, rest);
    }
  }

  /** Round trip: the printed text of a grammar tree parses back to that tree. */
  lemma ParseInvertsPrint<A>(e: Expr<A>)
    requires IsDisjunction(e)
    ensures Parse(Print(e)) == Some(e)
  {
    ParsesDisjunction(e, []);
    assert Print(e) + [] == Print(e);
  }

  // ----- parentheses -----

  /** Nesting depth after the text, or None if it ever closes more than it opened. */
  function Nesting<A>(t: seq<Token<A>>, depth: nat): Option<nat> {
    if t == [] then Some(depth)
    else if t[0] == Open then Nesting(t[1..], depth + 1)
    else if t[0] == Close then (if depth == 0 then None else Nesting(t[1..], depth - 1))
    else Nesting(t[1..], depth)
  }

  predicate Balanced<A>(t: seq<Token<A>>) {
    Nesting(t, 0) == Some(0)
  }

  lemma {:induction false} NestingSplits<A>(s: seq<Token<A>>, t: seq<Token<A>>, depth: nat)
    ensures Nesting(s + t, depth) ==
            match Nesting(s, depth) case Some(d) => Nesting(t, d) case None => None
  {
    if s == [] {
      assert s + t == t;
    } else {
      assert (s + t)[1..] == s[1..] + t;
      if s[0] == Open {
        NestingSplits(s[1..], t, depth + 1);
      } else if s[0] == Close {
        if depth > 0 { NestingSplits(s[1..], t, depth - 1); }
      } else {
        NestingSplits(s[1..], t, depth);
      }
    }
  }
}
