/**
 Returns out of lambda expressions: which RETURN and RETURN-FROM forms the compiler of BLOCK turns
 into THROW.  Forms are S-expressions without shared structure, so that a part of a form is known by
 its path.
 */
module NonlocalReturns {
  import opened Options

  datatype Sexp = Sym(id: nat) | Other(value: int) | Cons(car: Sexp, cdr: Sexp)

  const NIL := Sym(0)
  const T := Sym(1)
  const QUOTE := Sym(2)
  const LAMBDA := Sym(3)
  const BLOCK := Sym(4)
  const RETURN_FROM := Sym(5)
  const RETURN := Sym(6)
  const FLET := Sym(7)
  const LABELS := Sym(8)
  const CAPTURE_COMPILER_ENVIRONMENT := Sym(9)

  datatype Dir = Car | Cdr

  type Path = seq<Dir>

  predicate IsList(x: Sexp) { x.Cons? || x == NIL }

  predicate ValidLambda(x: Sexp) {
    x.Cons? && x.cdr.Cons? && x.car == LAMBDA && IsList(x.cdr.car)
  }

  predicate ValidBlock(x: Sexp) {
    x.Cons? && x.cdr.Cons? && x.car == BLOCK && x.cdr.car.Sym?
  }

  function Prefix(d: Dir, paths: seq<Path>): (r: seq<Path>)
    ensures |r| == |paths|
    ensures forall p :: p in r <==> p != [] && p[0] == d && p[1..] in paths
  {
    var r := seq(|paths|, i requires 0 <= i < |paths| => [d] + paths[i]);
    assert forall i :: 0 <= i < |paths| ==> r[i][1..] == paths[i] && r[i] in r;
    assert forall p: Path :: p != [] && p[0] == d ==> p == [d] + p[1..];
    r
  }

  /** The path below one step, if it goes that way. */
  function Below(target: Option<Path>, d: Dir): Option<Path> {
    if target.Some? && target.value != [] && target.value[0] == d then Some(target.value[1..]) else None
  }

  // ----- the analyses of the compiler -----

  /** The elements of a list. */
  function Elements(l: Sexp): seq<Path> {
    if l.Cons? then [[Car]] + Prefix(Cdr, Elements(l.cdr)) else []
  }

  /** findLambdas: the lambda expressions that are not inside others. */
  function FindLambdas(x: Sexp): seq<Path> {
    if !x.Cons? then []
    else if ValidLambda(x) then [[]]
    else if (x.car == FLET || x.car == LABELS) && x.cdr.Cons? && IsList(x.cdr.car) then
      Prefix(Cdr, Prefix(Car, Elements(x.cdr.car))) + Prefix(Cdr, Prefix(Cdr, FindLambdas(x.cdr.cdr)))
    else if x.car == QUOTE then []
    else Prefix(Car, FindLambdas(x.car)) + Prefix(Cdr, FindLambdas(x.cdr))
  }

  /** findBlockLabels: T and the labels of the blocks around the target, None when it is not there. */
  function FindBlockLabels(outer: Sexp, target: Option<Path>, labels: seq<Sexp>): Option<seq<Sexp>>
    decreases outer, 1
  {
    if target == Some([]) then Some([T] + labels)
    else if !outer.Cons? then None
    else if outer.car == QUOTE then None
    else if ValidBlock(outer) then
      FindBlockLabels(outer.cdr.cdr, Below(Below(target, Cdr), Cdr), [outer.cdr.car] + labels)
    else FindLabelsIn(outer, target, labels)
  }

  /** Its loop over the elements of a form. */
  function FindLabelsIn(t: Sexp, target: Option<Path>, labels: seq<Sexp>): Option<seq<Sexp>>
    decreases t, 0
  {
    if !t.Cons? then None
    else
      var ret := FindBlockLabels(t.car, Below(target, Car), labels);
      if ret.Some? then ret else FindLabelsIn(t.cdr, Below(target, Cdr), labels)
  }

  predicate IsReturnTo(sym: Sexp, form: Sexp) {
    form.Cons? && ((form.car == RETURN_FROM && form.cdr.Cons? && form.cdr.car == sym) || (form.car == RETURN && sym == NIL))
  }

  /** findEmbeddedReturnForms: the returns to a label that no block inside the form catches. */
  function EmbeddedReturns(sym: Sexp, form: Sexp, labels: seq<Sexp>): seq<Path>
    decreases form, 1
  {
    if !form.Cons? then []
    else if form.car == QUOTE then []
    else if ValidBlock(form) then
      Prefix(Cdr, Prefix(Cdr, EmbeddedReturns(sym, form.cdr.cdr, [form.cdr.car] + labels)))
    else (if IsReturnTo(sym, form) && sym !in labels then [[]] else []) + EmbeddedIn(sym, form, labels)
  }

  /** Its loop over the elements: the list of results is built from the front, so it ends up reversed. */
  function EmbeddedIn(sym: Sexp, p: Sexp, labels: seq<Sexp>): seq<Path>
    decreases p, 0
  {
    if !p.Cons? then []
    else Prefix(Cdr, EmbeddedIn(sym, p.cdr, labels)) + Prefix(Car, Reverse(EmbeddedReturns(sym, p.car, labels)))
  }

  function Reverse(s: seq<Path>): (r: seq<Path>)
    ensures |r| == |s| && forall p :: p in r <==> p in s
  {
    if s == [] then []
    else
      assert forall p :: p in s <==> p == s[0] || p in s[1..];
      Reverse(s[1..]) + [s[0]]
  }

  // ----- what they are for -----

  /** The form at a path that leads only through elements of unquoted forms. */
  function FormAt(x: Sexp, path: Path): Option<Sexp>
    decreases x, 1
  {
    if path == [] then Some(x) else if x.Cons? && x.car == QUOTE then None else ElementAt(x, path)
  }

  function ElementAt(l: Sexp, path: Path): Option<Sexp>
    decreases l, 0
  {
    if !l.Cons? || path == [] then None
    else if path[0] == Cdr then ElementAt(l.cdr, path[1..])
    else FormAt(l.car, path[1..])
  }

  /** The forms around the one at a path, from the outermost. */
  function Enclosing(x: Sexp, path: Path): seq<Sexp>
    decreases x, 1
  {
    if path == [] then [] else [x] + EnclosingIn(x, path)
  }

  function EnclosingIn(l: Sexp, path: Path): seq<Sexp>
    decreases l, 0
  {
    if !l.Cons? || path == [] then []
    else if path[0] == Cdr then EnclosingIn(l.cdr, path[1..])
    else Enclosing(l.car, path[1..])
  }

  predicate AnyLambda(forms: seq<Sexp>) {
    exists e :: e in forms && ValidLambda(e)
  }

  /** Some of the forms is a block with this label. */
  predicate AnyBlock(forms: seq<Sexp>, label0: Sexp) {
    exists e :: e in forms && ValidBlock(e) && e.cdr.car == label0
  }

  /** The label of the block that a form returns to: RETURN means the one labelled NIL. */
  function ReturnLabel(form: Sexp): Option<Sexp> {
    match form
    case Cons(op, rest) =>
      if op == RETURN then Some(NIL)
      else if op == RETURN_FROM && rest.Cons? then Some(rest.car)
      else None
    case _ => None
  }

  /** A return out of a lambda expression whose innermost matching block is the given one. */
  predicate NonlocalReturn(block: Sexp, p: Path)
    requires ValidBlock(block)
  {
    var form := FormAt(block, p);
    && form.Some? && ReturnLabel(form.value) == Some(block.cdr.car)
    && AnyLambda(Enclosing(block, p))
    && Enclosing(block, p) != [] && !AnyBlock(Enclosing(block, p)[1..], block.cdr.car)
  }

  // ----- the shapes of forms, constructor by constructor -----

  /** The recognizer of the analyses knows the label of a return form, and takes nothing else for one. */
  lemma ReturnLabelIs(sym: Sexp, form: Sexp)
    ensures IsReturnTo(sym, form) <==> ReturnLabel(form) == Some(sym)
  {
  }

  /** RETURN returns to NIL, RETURN-FROM to the label it names, and nothing else is a return form. */
  lemma ReturnShapes(sym: Sexp, l: Sexp, v: Sexp, form: Sexp)
    ensures IsReturnTo(sym, Cons(Sym(6), v)) <==> sym == Sym(0)
    ensures IsReturnTo(sym, Cons(Sym(5), Cons(l, v))) <==> sym == l
    ensures IsReturnTo(sym, form) ==> form.Cons? && (form.car == Sym(6) || (form.car == Sym(5) && form.cdr.Cons?))
  {
  }

  /** (LAMBDA list . body) and (BLOCK symbol . body), and nothing else. */
  lemma LambdaShapes(a: Sexp, body: Sexp, x: Sexp)
    ensures ValidLambda(Cons(Sym(3), Cons(a, body))) <==> a.Cons? || a == Sym(0)
    ensures ValidBlock(Cons(Sym(4), Cons(a, body))) <==> a.Sym?
    ensures ValidLambda(x) ==> x.Cons? && x.car == Sym(3) && x.cdr.Cons?
    ensures ValidBlock(x) ==> x.Cons? && x.car == Sym(4) && x.cdr.Cons?
  {
  }

  /** No part of a quoted form is a form. */
  lemma QuotedParts(x: Sexp, p: Path)
    ensures p != [] ==> FormAt(Cons(Sym(2), x), p) == None
    ensures FindLambdas(Cons(Sym(2), x)) == []
  {
  }

  /** The path leads to an element of a list. */
  predicate ElementPath(l: Sexp, p: Path) {
    l.Cons? && p != [] && if p[0] == Car then p == [Car] else ElementPath(l.cdr, p[1..])
  }

  lemma {:induction false} ElementsExact(l: Sexp, p: Path)
    ensures p in Elements(l) <==> ElementPath(l, p)
  {
    if l.Cons? {
      assert [Car][1..] == [];
      if p != [] && p[0] == Car {
        assert p == [Car] + p[1..];
      } else if p != [] {
        ElementsExact(l.cdr, p[1..]);
      }
    }
  }

  /** FLET and LABELS: every definition counts as a lambda expression, and those in the body are found as always. */
  lemma LocalFunctions(defs: Sexp, body: Sexp, labels: bool, p: Path)
    requires IsList(defs)
    ensures p in FindLambdas(Cons(if labels then Sym(8) else Sym(7), Cons(defs, body))) <==>
            |p| >= 2 && p[0] == Cdr && if p[1] == Car then ElementPath(defs, p[2..]) else p[2..] in FindLambdas(body)
  {
    var x := Cons(if labels then Sym(8) else Sym(7), Cons(defs, body));
    LocalUnfold(x);
    hide Prefix, Elements, FindLambdas;
    if |p| >= 2 {
      assert p[1..][0] == p[1] && p[1..][1..] == p[2..];
      ElementsExact(defs, p[2..]);
    }
  }

  lemma LocalUnfold(x: Sexp)
    requires x.Cons? && (x.car == FLET || x.car == LABELS) && x.cdr.Cons? && IsList(x.cdr.car)
    ensures FindLambdas(x) == Prefix(Cdr, Prefix(Car, Elements(x.cdr.car))) + Prefix(Cdr, Prefix(Cdr, FindLambdas(x.cdr.cdr)))
  {
    hide Prefix, Elements;
  }

  // ----- programs on which the analyses are exact -----

  predicate OperatorName(x: Sexp) { x == QUOTE || x == LAMBDA || x == FLET || x == LABELS }

  /**
   No FLET or LABELS, no operator among the arguments of a form where it would look like a form that
   begins there, and no body of a block that begins with an operator.
   */
  predicate WellFormed(x: Sexp)
    decreases x, 1
  {
    !x.Cons? || x.car == QUOTE ||
    (x.car != FLET && x.car != LABELS && WellFormed(x.car) && WellTail(x.cdr) && (ValidBlock(x) ==> PlainBody(x.cdr.cdr)))
  }

  predicate WellTail(l: Sexp)
    decreases l, 0
  {
    !l.Cons? || (!OperatorName(l.car) && WellFormed(l.car) && WellTail(l.cdr))
  }

  predicate PlainBody(b: Sexp) {
    b.Cons? ==> b.car != BLOCK && b.car != RETURN_FROM && b.car != RETURN
  }

  // ----- the topmost lambda expressions -----

  predicate TopLambda(x: Sexp, p: Path) {
    FormAt(x, p).Some? && ValidLambda(FormAt(x, p).value) && !AnyLambda(Enclosing(x, p))
  }

  predicate TopLambdaIn(l: Sexp, p: Path) {
    ElementAt(l, p).Some? && ValidLambda(ElementAt(l, p).value) && !AnyLambda(EnclosingIn(l, p))
  }

  lemma AnyLambdaCons(x: Sexp, forms: seq<Sexp>)
    ensures AnyLambda([x] + forms) <==> ValidLambda(x) || AnyLambda(forms)
    ensures !AnyLambda([])
  {
    assert x in [x] + forms;
    assert forall e :: e in forms ==> e in [x] + forms;
  }

  /** How a topmost lambda expression lies in a form. */
  lemma TopLambdaForm(x: Sexp, p: Path)
    ensures TopLambda(x, p) <==>
            if p == [] then ValidLambda(x) else !ValidLambda(x) && !(x.Cons? && x.car == QUOTE) && TopLambdaIn(x, p)
  {
    hide ElementAt, EnclosingIn, ValidLambda, AnyLambda;
    AnyLambdaCons(x, EnclosingIn(x, p));
  }

  lemma TopLambdaElement(l: Sexp, p: Path)
    ensures TopLambdaIn(l, p) <==>
            l.Cons? && p != [] && if p[0] == Cdr then TopLambdaIn(l.cdr, p[1..]) else TopLambda(l.car, p[1..])
  {
    hide FormAt, Enclosing, ValidLambda, AnyLambda;
  }

  lemma FindLambdasIn(x: Sexp)
    requires x.Cons? && !ValidLambda(x) && x.car != FLET && x.car != LABELS && x.car != QUOTE
    ensures FindLambdas(x) == Prefix(Car, FindLambdas(x.car)) + Prefix(Cdr, FindLambdas(x.cdr))
  {
    hide Prefix, ValidLambda;
  }

  lemma FindNoLambdas(x: Sexp)
    requires !x.Cons? || x.car == QUOTE
    ensures FindLambdas(x) == []
  {
  }

  lemma {:induction false} FindLambdasTail(l: Sexp, p: Path)
    requires WellTail(l)
    ensures p in FindLambdas(l) <==> TopLambdaIn(l, p)
    decreases l, 0
  {
    hide FindLambdas, Prefix, TopLambda, TopLambdaIn;
    TopLambdaElement(l, p);
    if l.Cons? {
      FindLambdasIn(l);
      if p != [] {
        FindLambdasForm(l.car, p[1..]);
        FindLambdasTail(l.cdr, p[1..]);
      }
    } else {
      FindNoLambdas(l);
    }
  }

  /** findLambdas finds exactly the unquoted lambda expressions that are not inside others. */
  lemma {:induction false} FindLambdasForm(x: Sexp, p: Path)
    requires WellFormed(x)
    ensures p in FindLambdas(x) <==> TopLambda(x, p)
    decreases x, 1
  {
    hide FindLambdas, Prefix, TopLambda, TopLambdaIn;
    TopLambdaForm(x, p);
    TopLambdaElement(x, p);
    if !x.Cons? || x.car == QUOTE {
      FindNoLambdas(x);
    } else if ValidLambda(x) {
      FindThis(x);
    } else {
      FindLambdasIn(x);
      if p != [] {
        FindLambdasForm(x.car, p[1..]);
        FindLambdasTail(x.cdr, p[1..]);
      }
    }
  }

  lemma FindThis(x: Sexp)
    requires ValidLambda(x)
    ensures FindLambdas(x) == [[]]
  {
  }

  // ----- the labels around a lambda expression -----

  lemma AnyBlockCons(x: Sexp, forms: seq<Sexp>, v: Sexp)
    ensures AnyBlock([x] + forms, v) <==> (ValidBlock(x) && x.cdr.car == v) || AnyBlock(forms, v)
    ensures !AnyBlock([], v)
  {
    assert x in [x] + forms;
    assert forall e :: e in forms ==> e in [x] + forms;
  }

  lemma {:induction false} NotThere(outer: Sexp, labels: seq<Sexp>)
    ensures FindBlockLabels(outer, None, labels) == None
    decreases outer, 1
  {
    if outer.Cons? {
      if ValidBlock(outer) {
        NotThere(outer.cdr.cdr, [outer.cdr.car] + labels);
      } else {
        NotThereIn(outer, labels);
      }
    }
  }

  lemma {:induction false} NotThereIn(t: Sexp, labels: seq<Sexp>)
    ensures FindLabelsIn(t, None, labels) == None
    decreases t, 0
  {
    hide FindBlockLabels;
    if t.Cons? {
      NotThere(t.car, labels);
      NotThereIn(t.cdr, labels);
    }
  }

  /** What the result says about one label. */
  predicate Tells(r: Option<seq<Sexp>>, v: Sexp, labels: seq<Sexp>, forms: seq<Sexp>) {
    r.Some? && (v in r.value <==> v == T || v in labels || AnyBlock(forms, v))
  }

  /** For a form inside another: all labels around it, and those given. */
  lemma {:induction false} LabelsForm(outer: Sexp, r: Path, labels: seq<Sexp>, v: Sexp)
    requires WellFormed(outer) && FormAt(outer, r).Some? && FormAt(outer, r).value.Cons?
    ensures Tells(FindBlockLabels(outer, Some(r), labels), v, labels, Enclosing(outer, r))
    decreases outer, 2
  {
    hide FindLabelsIn, AnyBlock, ElementAt, EnclosingIn, Tells, FindBlockLabels;
    LabelsUnfold(outer, Some(r), labels);
    if r == [] {
      TellsHere(v, labels);
    } else {
      ElementUnfold(outer, r);
      if ValidBlock(outer) {
        BlockElement(outer, r);
        var b := [outer.cdr.car] + labels;
        LabelsBody(outer.cdr.cdr, r[2..], b, v);
        assert r[1..][1..] == r[2..];
        TellsMore(FindBlockLabels(outer.cdr.cdr, Some(r[2..]), b), v, labels, outer, EnclosingIn(outer, r));
      } else {
        LabelsTail(outer, r, labels, v);
        TellsSame(FindLabelsIn(outer, Some(r), labels), v, labels, outer, EnclosingIn(outer, r));
      }
    }
  }

  /** The body of a block is searched as if it were a form. */
  lemma {:induction false} LabelsBody(b: Sexp, r: Path, labels: seq<Sexp>, v: Sexp)
    requires WellTail(b) && PlainBody(b) && ElementAt(b, r).Some? && ElementAt(b, r).value.Cons?
    ensures Tells(FindBlockLabels(b, Some(r), labels), v, labels, EnclosingIn(b, r))
    decreases b, 1
  {
    hide FindLabelsIn, AnyBlock, EnclosingIn, Tells, FindBlockLabels;
    LabelsUnfold(b, Some(r), labels);
    LabelsTail(b, r, labels, v);
  }

  lemma {:induction false} LabelsTail(t: Sexp, r: Path, labels: seq<Sexp>, v: Sexp)
    requires t.Cons? ==> WellFormed(t.car) && WellTail(t.cdr)
    requires ElementAt(t, r).Some? && ElementAt(t, r).value.Cons?
    ensures Tells(FindLabelsIn(t, Some(r), labels), v, labels, EnclosingIn(t, r))
    decreases t, 0
  {
    hide AnyBlock, Tells, FindBlockLabels, FormAt, Enclosing;
    if r[0] == Cdr {
      NotThere(t.car, labels);
      LabelsTail(t.cdr, r[1..], labels, v);
    } else {
      LabelsForm(t.car, r[1..], labels, v);
      TellsSome(FindBlockLabels(t.car, Some(r[1..]), labels), v, labels, Enclosing(t.car, r[1..]));
    }
  }

  lemma TellsSome(r: Option<seq<Sexp>>, v: Sexp, labels: seq<Sexp>, forms: seq<Sexp>)
    requires Tells(r, v, labels, forms)
    ensures r.Some?
  {
  }

  lemma TellsHere(v: Sexp, labels: seq<Sexp>)
    ensures Tells(Some([T] + labels), v, labels, [])
  {
  }

  lemma TellsMore(r: Option<seq<Sexp>>, v: Sexp, labels: seq<Sexp>, block: Sexp, forms: seq<Sexp>)
    requires ValidBlock(block) && Tells(r, v, [block.cdr.car] + labels, forms)
    ensures Tells(r, v, labels, [block] + forms)
  {
    AnyBlockCons(block, forms, v);
    hide AnyBlock;
  }

  lemma TellsSame(r: Option<seq<Sexp>>, v: Sexp, labels: seq<Sexp>, x: Sexp, forms: seq<Sexp>)
    requires !ValidBlock(x) && Tells(r, v, labels, forms)
    ensures Tells(r, v, labels, [x] + forms)
  {
    AnyBlockCons(x, forms, v);
    hide AnyBlock;
  }

  lemma ElementUnfold(l: Sexp, r: Path)
    requires r != []
    ensures FormAt(l, r).Some? ==> l.Cons? && l.car != QUOTE && ElementAt(l, r) == FormAt(l, r)
  {
    hide FormAt;
    FormUnfold(l, r);
  }

  lemma FormUnfold(x: Sexp, r: Path)
    ensures FormAt(x, r) == if r == [] then Some(x) else if x.Cons? && x.car == QUOTE then None else ElementAt(x, r)
    ensures !x.Cons? && r != [] ==> ElementAt(x, r) == None
  {
  }

  /** An atom has no parts. */
  lemma SymbolAt(x: Sexp, r: Path)
    requires !x.Cons?
    ensures !(FormAt(x, r).Some? && FormAt(x, r).value.Cons?)
  {
    FormUnfold(x, r);
  }

  lemma LabelsUnfold(outer: Sexp, target: Option<Path>, labels: seq<Sexp>)
    ensures target == Some([]) ==> FindBlockLabels(outer, target, labels) == Some([T] + labels)
    ensures target != Some([]) && outer.Cons? && outer.car != QUOTE ==>
              FindBlockLabels(outer, target, labels) ==
              if ValidBlock(outer) then FindBlockLabels(outer.cdr.cdr, Below(Below(target, Cdr), Cdr), [outer.cdr.car] + labels)
              else FindLabelsIn(outer, target, labels)
  {
    hide FindLabelsIn;
  }

  /** An element that holds a form is in the body of a block. */
  lemma BlockElement(block: Sexp, r: Path)
    requires ValidBlock(block) && ElementAt(block, r).Some? && ElementAt(block, r).value.Cons?
    ensures |r| >= 2 && r[0] == Cdr && r[1] == Cdr
    ensures ElementAt(block.cdr.cdr, r[2..]) == ElementAt(block, r) && EnclosingIn(block.cdr.cdr, r[2..]) == EnclosingIn(block, r)
  {
    hide FormAt, Enclosing;
    SymbolAt(block.car, r[1..]);
    assert r[0] == Cdr && ElementAt(block, r) == ElementAt(block.cdr, r[1..]);
    if |r| >= 2 {
      assert r[1..][1..] == r[2..] && r[1..][0] == r[1];
      SymbolAt(block.cdr.car, r[2..]);
    }
  }

  // ----- the returns inside a lambda expression -----

  /** A return to a label that no block on the way catches. */
  predicate Escapes(sym: Sexp, x: Sexp, p: Path) {
    FormAt(x, p).Some? && IsReturnTo(sym, FormAt(x, p).value) && !AnyBlock(Enclosing(x, p), sym)
  }

  predicate EscapesIn(sym: Sexp, l: Sexp, p: Path) {
    ElementAt(l, p).Some? && IsReturnTo(sym, ElementAt(l, p).value) && !AnyBlock(EnclosingIn(l, p), sym)
  }

  lemma EscapesForm(sym: Sexp, x: Sexp, p: Path)
    ensures Escapes(sym, x, p) <==>
            if p == [] then IsReturnTo(sym, x)
            else !(x.Cons? && x.car == QUOTE) && !(ValidBlock(x) && x.cdr.car == sym) && EscapesIn(sym, x, p)
  {
    hide ElementAt, EnclosingIn, AnyBlock, IsReturnTo;
    AnyBlockCons(x, EnclosingIn(x, p), sym);
  }

  lemma EscapesElement(sym: Sexp, l: Sexp, p: Path)
    ensures EscapesIn(sym, l, p) <==>
            l.Cons? && p != [] && if p[0] == Cdr then EscapesIn(sym, l.cdr, p[1..]) else Escapes(sym, l.car, p[1..])
  {
    hide FormAt, Enclosing, AnyBlock, IsReturnTo;
  }

  lemma ReturnIsCons(sym: Sexp, x: Sexp)
    ensures IsReturnTo(sym, x) ==> x.Cons? && !ValidBlock(x)
  {
  }

  lemma EscapesBlock(sym: Sexp, x: Sexp, p: Path)
    requires ValidBlock(x)
    ensures EscapesIn(sym, x, p) <==> |p| >= 2 && p[0] == Cdr && p[1] == Cdr && EscapesIn(sym, x.cdr.cdr, p[2..])
  {
    hide EscapesIn, Escapes;
    EscapesElement(sym, x, p);
    if p != [] {
      EscapesElement(sym, x.cdr, p[1..]);
      SymbolEscapes(sym, x.car, p[1..]);
      if |p| >= 2 {
        assert p[1..][1..] == p[2..] && p[1..][0] == p[1];
        SymbolEscapes(sym, x.cdr.car, p[2..]);
      }
    }
  }

  lemma SymbolEscapes(sym: Sexp, x: Sexp, p: Path)
    requires !x.Cons?
    ensures !Escapes(sym, x, p)
  {
    SymbolAt(x, p);
  }

  lemma EmbeddedUnfold(sym: Sexp, x: Sexp, labels: seq<Sexp>)
    ensures !x.Cons? || x.car == QUOTE ==> EmbeddedReturns(sym, x, labels) == []
    ensures x.Cons? && x.car != QUOTE ==>
              EmbeddedReturns(sym, x, labels) ==
              if ValidBlock(x) then Prefix(Cdr, Prefix(Cdr, EmbeddedReturns(sym, x.cdr.cdr, [x.cdr.car] + labels)))
              else (if IsReturnTo(sym, x) && sym !in labels then [[]] else []) + EmbeddedIn(sym, x, labels)
  {
    hide EmbeddedIn, Prefix, IsReturnTo;
  }

  lemma EmbeddedInMember(sym: Sexp, l: Sexp, labels: seq<Sexp>, p: Path)
    ensures p in EmbeddedIn(sym, l, labels) <==>
            l.Cons? && p != [] && if p[0] == Cdr then p[1..] in EmbeddedIn(sym, l.cdr, labels) else p[1..] in EmbeddedReturns(sym, l.car, labels)
  {
    hide EmbeddedReturns, Prefix, Reverse;
  }

  /** findEmbeddedReturnForms finds exactly the unquoted returns to the label that no block catches. */
  lemma {:induction false} EmbeddedForm(sym: Sexp, x: Sexp, labels: seq<Sexp>, p: Path)
    requires WellFormed(x)
    ensures p in EmbeddedReturns(sym, x, labels) <==> Escapes(sym, x, p) && sym !in labels
    decreases x, 2
  {
    hide EmbeddedReturns, EmbeddedIn, Prefix, Escapes, EscapesIn, IsReturnTo;
    EmbeddedUnfold(sym, x, labels);
    EscapesForm(sym, x, p);
    ReturnIsCons(sym, x);
    if !x.Cons? {
      EscapesElement(sym, x, p);
    } else if x.car == QUOTE {
      QuoteNoReturn(sym, x);
    } else if ValidBlock(x) {
      EscapesBlock(sym, x, p);
      if |p| >= 2 {
        assert p[1..][1..] == p[2..] && p[1..][0] == p[1];
        EmbeddedBody(sym, x.cdr.cdr, [x.cdr.car] + labels, p[2..]);
      }
    } else {
      EmbeddedTail(sym, x, labels, p);
      EscapesElement(sym, x, p);
      EmbeddedInMember(sym, x, labels, p);
    }
  }

  lemma QuoteNoReturn(sym: Sexp, x: Sexp)
    requires x.Cons? && x.car == QUOTE
    ensures !IsReturnTo(sym, x)
  {
  }

  lemma {:induction false} EmbeddedBody(sym: Sexp, b: Sexp, labels: seq<Sexp>, p: Path)
    requires WellTail(b) && PlainBody(b)
    ensures p in EmbeddedReturns(sym, b, labels) <==> EscapesIn(sym, b, p) && sym !in labels
    decreases b, 1
  {
    hide EmbeddedReturns, EmbeddedIn, Prefix, Escapes, EscapesIn;
    EmbeddedUnfold(sym, b, labels);
    EscapesElement(sym, b, p);
    if b.Cons? {
      EmbeddedTail(sym, b, labels, p);
    }
  }

  lemma {:induction false} EmbeddedTail(sym: Sexp, l: Sexp, labels: seq<Sexp>, p: Path)
    requires l.Cons? ==> WellFormed(l.car) && WellTail(l.cdr)
    ensures p in EmbeddedIn(sym, l, labels) <==> EscapesIn(sym, l, p) && sym !in labels
    decreases l, 0
  {
    hide EmbeddedReturns, EmbeddedIn, Escapes, EscapesIn;
    EmbeddedInMember(sym, l, labels, p);
    EscapesElement(sym, l, p);
    if l.Cons? && p != [] {
      if p[0] == Cdr {
        EmbeddedTail(sym, l.cdr, labels, p[1..]);
      } else {
        EmbeddedForm(sym, l.car, labels, p[1..]);
      }
    }
  }

  // ----- the loop of BLOCK -----

  /** Paths lead on from forms. */
  lemma {:induction false} FormThrough(x: Sexp, q: Path, s: Path)
    requires FormAt(x, q).Some?
    ensures FormAt(x, q + s) == FormAt(FormAt(x, q).value, s)
    ensures Enclosing(x, q + s) == Enclosing(x, q) + Enclosing(FormAt(x, q).value, s)
    decreases x, 1
  {
    hide ElementAt, EnclosingIn;
    if q == [] {
      assert q + s == s;
    } else {
      ElementThrough(x, q, s);
    }
  }

  lemma {:induction false} ElementThrough(l: Sexp, q: Path, s: Path)
    requires ElementAt(l, q).Some?
    ensures ElementAt(l, q + s) == FormAt(ElementAt(l, q).value, s)
    ensures EnclosingIn(l, q + s) == EnclosingIn(l, q) + Enclosing(ElementAt(l, q).value, s)
    decreases l, 0
  {
    hide FormAt, Enclosing;
    assert (q + s)[1..] == q[1..] + s;
    if q[0] == Cdr {
      ElementThrough(l.cdr, q[1..], s);
    } else {
      FormThrough(l.car, q[1..], s);
    }
  }

  /** The topmost lambda expression on a path. */
  lemma {:induction false} TopmostOnPath(x: Sexp, p: Path) returns (q: Path)
    requires FormAt(x, p).Some? && AnyLambda(Enclosing(x, p))
    ensures q <= p && TopLambda(x, q)
    decreases x, 1
  {
    hide ElementAt, EnclosingIn, AnyLambda, TopLambda, TopLambdaIn, ValidLambda;
    AnyLambdaCons(x, EnclosingIn(x, p));
    if ValidLambda(x) {
      q := [];
      TopLambdaForm(x, q);
    } else {
      q := TopmostElement(x, p);
      TopLambdaForm(x, q);
    }
  }

  lemma {:induction false} TopmostElement(l: Sexp, p: Path) returns (q: Path)
    requires ElementAt(l, p).Some? && AnyLambda(EnclosingIn(l, p))
    ensures q != [] && q <= p && TopLambdaIn(l, q)
    decreases l, 0
  {
    hide FormAt, Enclosing, AnyLambda, TopLambda, TopLambdaIn;
    if p[0] == Cdr {
      var r := TopmostElement(l.cdr, p[1..]);
      q := [Cdr] + r;
    } else {
      var r := TopmostOnPath(l.car, p[1..]);
      q := [Car] + r;
    }
    assert q[0] == p[0] && q[1..] <= p[1..];
    TopLambdaElement(l, q);
  }

  /** Whatever lies at a path, form or not. */
  function PartAt(x: Sexp, path: Path): Sexp
    decreases |path|
  {
    if path == [] then x
    else if !x.Cons? then NIL
    else PartAt(if path[0] == Car then x.car else x.cdr, path[1..])
  }

  lemma {:induction false} FormPart(x: Sexp, p: Path)
    requires FormAt(x, p).Some?
    ensures PartAt(x, p) == FormAt(x, p).value
    decreases |p|, 1
  {
    if p != [] {
      ElementUnfold(x, p);
      ElementPart(x, p);
    }
  }

  lemma {:induction false} ElementPart(l: Sexp, p: Path)
    requires ElementAt(l, p).Some?
    ensures PartAt(l, p) == ElementAt(l, p).value
    decreases |p|, 0
  {
    hide FormAt;
    if p[0] == Cdr {
      ElementPart(l.cdr, p[1..]);
    } else {
      hide PartAt;
      PartAtCar(l, p);
      FormPart(l.car, p[1..]);
    }
  }

  lemma PartAtCar(l: Sexp, p: Path)
    requires l.Cons? && p != [] && p[0] == Car
    ensures PartAt(l, p) == PartAt(l.car, p[1..])
  {
  }

  /** An inner block with the same label stands around the lambda expression at q. */
  predicate Caught(block: Sexp, q: Path)
    requires ValidBlock(block)
  {
    var labels := FindBlockLabels(block.cdr.cdr, Below(Below(Some(q), Cdr), Cdr), []);
    labels.Some? && block.cdr.car in labels.value
  }

  /** The loop of BLOCK takes the return form at p from the lambda expression at q. */
  predicate Taken(block: Sexp, q: Path, p: Path)
    requires ValidBlock(block)
  {
    q in FindLambdas(block) && !Caught(block, q) && q <= p && p[|q|..] in EmbeddedReturns(block.cdr.car, PartAt(block, q), [])
  }

  /** With a proper label, an inner block is seen exactly when it is there; with T always. */
  lemma CaughtExact(block: Sexp, q: Path)
    requires ValidBlock(block) && WellFormed(block) && TopLambda(block, q)
    ensures q != [] && Enclosing(block, q) == [block] + EnclosingIn(block, q)
    ensures Caught(block, q) <==> block.cdr.car == T || AnyBlock(EnclosingIn(block, q), block.cdr.car)
  {
    hide FindBlockLabels, ElementAt, EnclosingIn, AnyBlock, AnyLambda;
    LambdaNoBlock(block);
    ElementUnfold(block, q);
    BlockElement(block, q);
    BodyFormed(block);
    var label0 := block.cdr.car;
    LabelsBody(block.cdr.cdr, q[2..], [], label0);
    assert q[1..][1..] == q[2..] && q[1..][0] == q[1];
  }

  lemma LambdaNoBlock(x: Sexp)
    ensures !(ValidLambda(x) && ValidBlock(x))
  {
  }

  lemma BodyFormed(block: Sexp)
    requires ValidBlock(block) && WellFormed(block)
    ensures WellTail(block.cdr.cdr) && PlainBody(block.cdr.cdr)
  {
    hide WellFormed;
    FormedParts(block);
  }

  lemma FormedParts(block: Sexp)
    requires ValidBlock(block) && WellFormed(block)
    ensures WellTail(block.cdr) && PlainBody(block.cdr.cdr) && WellTail(block.cdr.cdr)
  {
  }

  /** The parts of a program that are forms are programs. */
  lemma {:induction false} FormedForm(x: Sexp, p: Path)
    requires WellFormed(x) && FormAt(x, p).Some?
    ensures WellFormed(FormAt(x, p).value)
    decreases |p|, 1
  {
    if p != [] {
      ElementUnfold(x, p);
      FormedElement(x, p);
    }
  }

  lemma {:induction false} FormedElement(l: Sexp, p: Path)
    requires (l.Cons? ==> WellFormed(l.car) && WellTail(l.cdr)) && ElementAt(l, p).Some?
    ensures WellFormed(ElementAt(l, p).value)
    decreases |p|, 0
  {
    hide FormAt, WellFormed;
    if p[0] == Cdr {
      TailParts(l.cdr);
      FormedElement(l.cdr, p[1..]);
    } else {
      FormedForm(l.car, p[1..]);
    }
  }

  lemma TailParts(l: Sexp)
    requires WellTail(l)
    ensures l.Cons? ==> WellFormed(l.car) && WellTail(l.cdr)
  {
  }

  lemma AnyBlockAppend(a: seq<Sexp>, b: seq<Sexp>, v: Sexp)
    ensures AnyBlock(a + b, v) <==> AnyBlock(a, v) || AnyBlock(b, v)
  {
    if AnyBlock(a, v) {
      var e :| e in a && ValidBlock(e) && e.cdr.car == v;
      assert e in a + b;
    }
    if AnyBlock(b, v) {
      var e :| e in b && ValidBlock(e) && e.cdr.car == v;
      assert e in a + b;
    }
  }

  /** Around a return form inside the lambda expression at q: the forms around that, and those inside. */
  lemma AroundReturn(block: Sexp, q: Path, p: Path)
    requires ValidBlock(block) && TopLambda(block, q) && q != [] && q <= p
    requires Enclosing(block, q) == [block] + EnclosingIn(block, q)
    ensures FormAt(block, p) == FormAt(FormAt(block, q).value, p[|q|..])
    ensures Enclosing(block, p) != []
    ensures AnyBlock(Enclosing(block, p)[1..], block.cdr.car) <==>
            AnyBlock(EnclosingIn(block, q), block.cdr.car) || AnyBlock(Enclosing(FormAt(block, q).value, p[|q|..]), block.cdr.car)
  {
    hide FormAt, Enclosing, EnclosingIn, AnyBlock;
    var s := p[|q|..];
    assert q + s == p;
    FormThrough(block, q, s);
    var inner := Enclosing(FormAt(block, q).value, s);
    assert Enclosing(block, p)[1..] == EnclosingIn(block, q) + inner;
    AnyBlockAppend(EnclosingIn(block, q), inner, block.cdr.car);
  }

  /** A return form is not the lambda expression itself, so the lambda expression is around it. */
  lemma LambdaAround(block: Sexp, q: Path, p: Path, sym: Sexp)
    requires TopLambda(block, q) && q <= p && FormAt(block, p).Some? && IsReturnTo(sym, FormAt(block, p).value)
    ensures AnyLambda(Enclosing(block, p))
  {
    var s := p[|q|..];
    assert q + s == p;
    FormThrough(block, q, s);
    var lam := FormAt(block, q).value;
    if s == [] {
      assert p == q;
      LambdaNoReturn(sym, lam);
    } else {
      assert Enclosing(lam, s)[0] == lam;
      assert lam in Enclosing(block, p);
    }
  }

  lemma LambdaNoReturn(sym: Sexp, x: Sexp)
    ensures !(ValidLambda(x) && IsReturnTo(sym, x))
  {
  }

  /** What is taken from one lambda expression. */
  lemma TakenFrom(block: Sexp, q: Path, p: Path)
    requires ValidBlock(block) && WellFormed(block) && TopLambda(block, q) && q <= p
    ensures Taken(block, q, p) <==> NonlocalReturn(block, p) && block.cdr.car != T
  {
    hide TopLambda, Caught, EmbeddedReturns, FormAt, Enclosing, EnclosingIn, AnyBlock, AnyLambda, IsReturnTo, ReturnLabel, FindLambdas, WellFormed, PartAt, ValidLambda;
    var label0 := block.cdr.car;
    FindLambdasForm(block, q);
    TopIsForm(block, q);
    var lam := FormAt(block, q).value;
    FormPart(block, q);
    FormedForm(block, q);
    CaughtExact(block, q);
    EmbeddedForm(label0, lam, [], p[|q|..]);
    AroundReturn(block, q, p);
    if FormAt(block, p).Some? {
      ReturnLabelIs(label0, FormAt(block, p).value);
      if IsReturnTo(label0, FormAt(block, p).value) {
        LambdaAround(block, q, p, label0);
      }
    }
  }

  lemma TopIsForm(x: Sexp, q: Path)
    requires TopLambda(x, q)
    ensures FormAt(x, q).Some?
  {
    hide FormAt;
  }

  /**
   The returns taken are exactly those inside lambda expressions whose innermost matching block is
   this one, unless the label is T, which the analysis takes for its own mark.
   */
  lemma TakenExact(block: Sexp, p: Path)
    requires ValidBlock(block) && WellFormed(block)
    ensures (exists q :: Taken(block, q, p)) <==> NonlocalReturn(block, p) && block.cdr.car != T
  {
    hide Caught, EmbeddedReturns, FormAt, Enclosing, AnyBlock, AnyLambda, IsReturnTo, FindLambdas, WellFormed, PartAt, TopLambda;
    if q :| Taken(block, q, p) {
      FindLambdasForm(block, q);
      TakenFrom(block, q, p);
    }
    if NonlocalReturn(block, p) {
      var q := TopmostOnPath(block, p);
      TakenFrom(block, q, p);
    }
  }

  /**
   For a block labelled NIL: exactly the forms (RETURN . v) and (RETURN-FROM NIL . v) inside a lambda
   expression that no inner block labelled NIL stands around.
   */
  lemma NilBlockExact(body: Sexp, p: Path)
    requires WellFormed(Cons(Sym(4), Cons(Sym(0), body)))
    ensures var block := Cons(Sym(4), Cons(Sym(0), body));
            (exists q :: Taken(block, q, p)) <==>
            && FormAt(block, p).Some?
            && (var form := FormAt(block, p).value;
                form.Cons? && (form.car == Sym(6) || (form.car == Sym(5) && form.cdr.Cons? && form.cdr.car == Sym(0))))
            && AnyLambda(Enclosing(block, p))
            && Enclosing(block, p) != [] && !AnyBlock(Enclosing(block, p)[1..], Sym(0))
  {
    hide Taken, FormAt, Enclosing, AnyBlock, AnyLambda, WellFormed;
    TakenExact(Cons(Sym(4), Cons(Sym(0), body)), p);
  }

  /** A block whose body is one lambda expression without parameters, whose body is one form. */
  function OneLambda(l: Sexp, form: Sexp): Sexp {
    Cons(BLOCK, Cons(l, Cons(Cons(LAMBDA, Cons(NIL, Cons(form, NIL))), NIL)))
  }

  const INNER_PATH: Path := [Cdr, Cdr, Car, Cdr, Cdr, Car]

  lemma OneLambdaForm(l: Sexp, form: Sexp)
    requires l.Sym? && form.Cons?
    ensures var block := OneLambda(l, form);
            && ValidBlock(block) && FormAt(block, INNER_PATH) == Some(form)
            && Enclosing(block, INNER_PATH) == [block, block.cdr.cdr.car] && AnyLambda(Enclosing(block, INNER_PATH))
            && !AnyBlock(Enclosing(block, INNER_PATH)[1..], l)
  {
    hide FormAt, ElementAt, Enclosing, EnclosingIn;
    var block, p := OneLambda(l, form), INNER_PATH;
    var lam, r := block.cdr.cdr.car, [Cdr, Cdr, Car];
    StepHere(form);
    StepCar(lam.cdr.cdr, []);
    StepCdr(lam.cdr, [Car]);
    StepCdr(lam, [Cdr, Car]);
    StepForm(lam, r);
    StepCar(block.cdr.cdr, r);
    StepCdr(block.cdr, [Car, Cdr, Cdr, Car]);
    StepCdr(block, [Cdr, Car, Cdr, Cdr, Car]);
    StepForm(block, p);
    assert [Car] + [] == [Car] && [Cdr] + [Car] == [Cdr, Car] && [Cdr] + [Cdr, Car] == r && [Car] + r == [Car, Cdr, Cdr, Car];
    assert [Cdr] + [Car, Cdr, Cdr, Car] == [Cdr, Car, Cdr, Cdr, Car] && [Cdr] + [Cdr, Car, Cdr, Cdr, Car] == p;
    assert Enclosing(block, p) == [block, lam];
    assert lam in Enclosing(block, p);
  }

  lemma StepHere(x: Sexp)
    ensures FormAt(x, []) == Some(x) && Enclosing(x, []) == []
  {
  }

  lemma StepForm(x: Sexp, p: Path)
    requires p != [] && x.Cons? && x.car != QUOTE
    ensures FormAt(x, p) == ElementAt(x, p) && Enclosing(x, p) == [x] + EnclosingIn(x, p)
  {
  }

  lemma StepCar(l: Sexp, r: Path)
    requires l.Cons?
    ensures ElementAt(l, [Car] + r) == FormAt(l.car, r) && EnclosingIn(l, [Car] + r) == Enclosing(l.car, r)
  {
    assert ([Car] + r)[1..] == r;
  }

  lemma StepCdr(l: Sexp, r: Path)
    requires l.Cons?
    ensures ElementAt(l, [Cdr] + r) == ElementAt(l.cdr, r) && EnclosingIn(l, [Cdr] + r) == EnclosingIn(l.cdr, r)
  {
    assert ([Cdr] + r)[1..] == r;
  }

  /** In (BLOCK T (LAMBDA NIL (RETURN-FROM T))) the return is missed. */
  lemma MissedReturn()
    ensures var block := OneLambda(T, Cons(RETURN_FROM, Cons(T, NIL)));
            && ValidBlock(block) && WellFormed(block) && NonlocalReturn(block, INNER_PATH)
            && !exists q :: Taken(block, q, INNER_PATH)
  {
    hide Taken, FormAt, Enclosing, AnyLambda, AnyBlock;
    var block := OneLambda(T, Cons(RETURN_FROM, Cons(T, NIL)));
    OneLambdaForm(T, Cons(RETURN_FROM, Cons(T, NIL)));
    TakenExact(block, INNER_PATH);
  }

  /** In (BLOCK NIL (LAMBDA NIL (RETURN))) it is taken. */
  lemma TakenReturn()
    ensures var block := OneLambda(Sym(0), Cons(Sym(6), Sym(0)));
            ValidBlock(block) && exists q :: Taken(block, q, INNER_PATH)
  {
    hide Taken, FormAt, Enclosing, AnyLambda, AnyBlock;
    OneLambdaForm(Sym(0), Cons(Sym(6), Sym(0)));
    NilBlockExact(OneLambda(Sym(0), Cons(Sym(6), Sym(0))).cdr.cdr, INNER_PATH);
  }

  function PrefixAll(q: Path, paths: seq<Path>): (r: seq<Path>)
    ensures |r| == |paths|
    ensures forall p :: p in r <==> q <= p && p[|q|..] in paths
  {
    var r := seq(|paths|, i requires 0 <= i < |paths| => q + paths[i]);
    assert forall i :: 0 <= i < |paths| ==> r[i][|q|..] == paths[i] && r[i] in r;
    assert forall p: Path :: q <= p ==> p == q + p[|q|..];
    r
  }

  // ----- the loops of findEmbeddedReturnForms -----

  lemma PrefixAllAppend(q: Path, a: seq<Path>, b: seq<Path>)
    ensures PrefixAll(q, a + b) == PrefixAll(q, a) + PrefixAll(q, b)
  {
  }

  lemma PrefixAllDown(q: Path, d: Dir, s: seq<Path>)
    ensures PrefixAll(q, Prefix(d, s)) == PrefixAll(q + [d], s)
  {
    assert forall i :: 0 <= i < |s| ==> q + ([d] + s[i]) == q + [d] + s[i];
  }

  lemma PrefixAllNone(s: seq<Path>)
    ensures PrefixAll([], s) == s && PrefixAll([], []) == []
  {
    assert forall i :: 0 <= i < |s| ==> [] + s[i] == s[i];
  }

  /** One more element: its results go in front, the last one first. */
  lemma EmbeddedStep(sym: Sexp, p: Sexp, labels: seq<Sexp>, at: Path)
    requires p.Cons?
    ensures PrefixAll(at, EmbeddedIn(sym, p, labels)) ==
            PrefixAll(at + [Cdr], EmbeddedIn(sym, p.cdr, labels)) + PrefixAll(at + [Car], Reverse(EmbeddedReturns(sym, p.car, labels)))
  {
    hide EmbeddedReturns, Prefix, PrefixAll, Reverse;
    var a, b := EmbeddedIn(sym, p.cdr, labels), Reverse(EmbeddedReturns(sym, p.car, labels));
    EmbeddedCons(sym, p, labels);
    PrefixAllAppend(at, Prefix(Cdr, a), Prefix(Car, b));
    PrefixAllDown(at, Cdr, a);
    PrefixAllDown(at, Car, b);
  }

  lemma EmbeddedCons(sym: Sexp, p: Sexp, labels: seq<Sexp>)
    ensures EmbeddedIn(sym, p, labels) ==
            if p.Cons? then Prefix(Cdr, EmbeddedIn(sym, p.cdr, labels)) + Prefix(Car, Reverse(EmbeddedReturns(sym, p.car, labels))) else []
  {
    hide EmbeddedReturns, Prefix, Reverse;
  }

  /** The inner loop: the results of one element, each put at the front of the list. */
  method PutInFront(at: Path, found: seq<Path>, forms: seq<Path>) returns (retforms: seq<Path>)
    ensures retforms == PrefixAll(at, Reverse(found)) + forms
  {
    retforms := forms;
    var ret := found;
    while ret != []
      invariant PrefixAll(at, Reverse(ret)) + retforms == PrefixAll(at, Reverse(found)) + forms
      decreases |ret|
    {
      PrefixAllAppend(at, Reverse(ret[1..]), [ret[0]]);
      assert PrefixAll(at, [ret[0]]) == [at + ret[0]];
      retforms := [at + ret[0]] + retforms;
      ret := ret[1..];
    }
  }

  /** findEmbeddedReturnForms as the source writes it, with its loops over elements and results. */
  method FindEmbeddedReturnForms(sym: Sexp, form: Sexp, labels: seq<Sexp>) returns (retforms: seq<Path>)
    ensures retforms == EmbeddedReturns(sym, form, labels)
    decreases form
  {
    hide EmbeddedReturns, EmbeddedIn, Prefix, PrefixAll, Reverse, IsReturnTo;
    EmbeddedUnfold(sym, form, labels);
    if !form.Cons? || form.car == QUOTE {
      return [];
    }
    if ValidBlock(form) {
      retforms := FindEmbeddedReturnForms(sym, form.cdr.cdr, [form.cdr.car] + labels);
      return Prefix(Cdr, Prefix(Cdr, retforms));
    }
    retforms := [];
    var p, at: Path := form, [];
    PrefixAllNone(EmbeddedIn(sym, form, labels));
    while p.Cons?
      invariant p == form || p < form
      invariant PrefixAll(at, EmbeddedIn(sym, p, labels)) + retforms == EmbeddedIn(sym, form, labels)
      decreases p
    {
      EmbeddedStep(sym, p, labels, at);
      var ret := FindEmbeddedReturnForms(sym, p.car, labels);
      retforms := PutInFront(at + [Car], ret, retforms);
      at := at + [Cdr];
      p := p.cdr;
    }
    EmbeddedCons(sym, p, labels);
    NothingPrefixed(at);
    if IsReturnTo(sym, form) && sym !in labels {
      retforms := [[]] + retforms;
    }
  }

  lemma NothingPrefixed(at: Path)
    ensures PrefixAll(at, []) == []
  {
  }

  /** The part of the compiler of BLOCK that collects the return forms to rewrite. */
  method CollectReturns(block: Sexp) returns (embeddedReturns: seq<Path>)
    requires ValidBlock(block)
    ensures forall p :: p in embeddedReturns <==> exists q :: Taken(block, q, p)
    ensures WellFormed(block) ==> forall p :: p in embeddedReturns <==> NonlocalReturn(block, p) && block.cdr.car != T
  {
    hide Caught, EmbeddedReturns, FindLambdas, PartAt, PrefixAll, WellFormed, NonlocalReturn;
    var lambdas := FindLambdas(block);
    embeddedReturns := [];
    var i := 0;
    while i < |lambdas|
      invariant 0 <= i <= |lambdas|
      invariant forall p :: p in embeddedReturns <==> exists k :: 0 <= k < i && Taken(block, lambdas[k], p)
    {
      ghost var before := embeddedReturns;
      if !Caught(block, lambdas[i]) {
        var forms := FindEmbeddedReturnForms(block.cdr.car, PartAt(block, lambdas[i]), []);
        embeddedReturns := PrefixAll(lambdas[i], forms) + embeddedReturns;
      }
      assert forall p :: p in embeddedReturns <==> p in before || Taken(block, lambdas[i], p);
      i := i + 1;
    }
    forall p
      ensures p in embeddedReturns <==> exists q :: Taken(block, q, p)
      ensures WellFormed(block) ==> (p in embeddedReturns <==> NonlocalReturn(block, p) && block.cdr.car != T)
    {
      if q :| Taken(block, q, p) {
        var k :| 0 <= k < |lambdas| && lambdas[k] == q;
        assert Taken(block, lambdas[k], p);
      }
      if WellFormed(block) {
        TakenExact(block, p);
      }
    }
  }

  // ----- variables that need cells -----

  predicate Occurs(sym: Sexp, x: Sexp) {
    x == sym || (x.Cons? && (Occurs(sym, x.car) || Occurs(sym, x.cdr)))
  }

  /** searchLambdas: the symbol itself when it, or the mark that captures everything, occurs. */
  function SearchLambdas(sym: Sexp, lambdas: Sexp): Sexp {
    if lambdas == sym then sym
    else if lambdas == CAPTURE_COMPILER_ENVIRONMENT then sym
    else if !lambdas.Cons? then NIL
    else
      var t := SearchLambdas(sym, lambdas.car);
      if t != NIL then t else SearchLambdas(sym, lambdas.cdr)
  }

  /** A variable gets a cell exactly when a lambda expression mentions it or captures the whole environment. */
  lemma {:induction false} SearchExact(sym: Sexp, lambdas: Sexp)
    requires sym.Sym? && sym != NIL
    ensures SearchLambdas(sym, lambdas) == if Occurs(sym, lambdas) || Occurs(CAPTURE_COMPILER_ENVIRONMENT, lambdas) then sym else NIL
  {
    if lambdas.Cons? {
      SearchExact(sym, lambdas.car);
      SearchExact(sym, lambdas.cdr);
    }
  }
}
