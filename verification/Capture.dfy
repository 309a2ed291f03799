/**
 Which variables get cells, joined to where inner functions look for them.  Each function of a nest
 decides from its own text, by searching the lambda expressions in it, and that is enough for every
 function inside to find every variable it mentions.
 */
module Capture {
  import opened Options
  import C = Closures
  import N = NonlocalReturns

  /** A function of a nest: its forms, and its lexical records at the place where the next inner one stands. */
  datatype Function = Function(forms: N.Sexp, records: seq<C.Rec>)

  /** The list of lambda expressions that findLambdas makes. */
  function ListOf(x: N.Sexp, paths: seq<N.Path>): N.Sexp {
    if paths == [] then N.NIL else N.Cons(N.PartAt(x, paths[0]), ListOf(x, paths[1..]))
  }

  /** EMBEDDED_LAMBDAS while a function is compiled. */
  function EmbeddedLambdas(forms: N.Sexp): N.Sexp {
    ListOf(forms, N.FindLambdas(forms))
  }

  /** referencedByEmbeddedLambdas. */
  predicate Referenced(name: C.Sym, forms: N.Sexp) {
    N.SearchLambdas(N.Sym(name), EmbeddedLambdas(forms)) != N.NIL
  }

  /** The variables are in cells exactly when the function's lambda expressions refer to them; NIL is not a variable. */
  predicate Decided(f: Function) {
    forall i :: 0 <= i < |f.records| && f.records[i].Binding? && f.records[i].kind == C.Variable ==>
      f.records[i].name != 0 && f.records[i].heap == Referenced(f.records[i].name, f.forms)
  }

  predicate OwnRecords(records: seq<C.Rec>) {
    forall i :: 0 <= i < |records| ==> !records[i].Environment?
  }

  /** These are the lambda list and the body of an expression that findLambdas finds in the function. */
  predicate StandsIn(forms: N.Sexp, f: Function) {
    exists k :: 0 <= k < |N.FindLambdas(f.forms)| && IsPart(f.forms, N.FindLambdas(f.forms)[k], forms)
  }

  predicate IsPart(x: N.Sexp, path: N.Path, forms: N.Sexp) {
    var e := N.PartAt(x, path);
    e.Cons? && e.cdr == forms
  }

  /** Functions inside each other, the innermost first: each is a lambda expression of the next. */
  predicate Nest(fs: seq<Function>) {
    && |fs| > 0
    && (forall i :: 0 <= i < |fs| ==> Decided(fs[i]) && OwnRecords(fs[i].records))
    && (forall i :: 0 < i < |fs| ==> StandsIn(fs[i - 1].forms, fs[i]))
  }

  /** The records that the innermost function is compiled with. */
  function Environment(fs: seq<Function>): (env: seq<C.Rec>)
    requires |fs| > 0
  {
    if |fs| == 1 then fs[0].records else fs[0].records + [C.Environment] + Environment(fs[1..])
  }

  // ----- mentioned inside, referenced outside -----

  lemma {:induction false} OccursInList(sym: N.Sexp, x: N.Sexp, paths: seq<N.Path>, k: nat)
    requires k < |paths| && N.Occurs(sym, N.PartAt(x, paths[k]))
    ensures N.Occurs(sym, ListOf(x, paths))
  {
    if k > 0 {
      OccursInList(sym, x, paths[1..], k - 1);
    }
  }

  lemma {:induction false} PartOccurs(sym: N.Sexp, x: N.Sexp, path: N.Path)
    requires sym.Sym? && sym != N.NIL && N.Occurs(sym, N.PartAt(x, path))
    ensures N.Occurs(sym, x)
    decreases |path|
  {
    if path != [] && x.Cons? {
      PartOccurs(sym, if path[0] == N.Car then x.car else x.cdr, path[1..]);
    }
  }

  /** What an inner function mentions, the function around it mentions and keeps in a cell. */
  lemma MentionReferenced(name: C.Sym, forms: N.Sexp, f: Function)
    requires name != 0 && StandsIn(forms, f) && N.Occurs(N.Sym(name), forms)
    ensures Referenced(name, f.forms) && N.Occurs(N.Sym(name), f.forms)
  {
    hide N.FindLambdas;
    var paths := N.FindLambdas(f.forms);
    var k :| 0 <= k < |paths| && IsPart(f.forms, paths[k], forms);
    PartOccurs(N.Sym(name), f.forms, paths[k]);
    OccursInList(N.Sym(name), f.forms, paths, k);
    N.SearchExact(N.Sym(name), EmbeddedLambdas(f.forms));
  }

  /** A function that refers to the name from an inner one, and those around it: all bindings of the name are in cells. */
  lemma {:induction false} BindingsInCells(fs: seq<Function>, name: C.Sym, i: nat)
    requires Nest(fs) && name != 0 && Referenced(name, fs[0].forms) && N.Occurs(N.Sym(name), fs[0].forms)
    requires i < |Environment(fs)| && C.Matches(Environment(fs)[i], name, C.Variable)
    ensures C.IsHeap(Environment(fs)[i])
    decreases |fs|
  {
    hide N.Occurs, Referenced, StandsIn;
    var own := |fs[0].records|;
    if i < own {
      assert Environment(fs)[i] == fs[0].records[i];
    } else {
      assert i > own && Environment(fs)[i] == Environment(fs[1..])[i - own - 1];
      MentionReferenced(name, fs[0].forms, fs[1]);
      InnerNest(fs);
      BindingsInCells(fs[1..], name, i - own - 1);
    }
  }

  lemma InnerNest(fs: seq<Function>)
    requires Nest(fs) && |fs| > 1
    ensures Nest(fs[1..])
  {
    hide Decided, OwnRecords, StandsIn;
    var g := fs[1..];
    forall i | 0 < i < |g|
      ensures StandsIn(g[i - 1].forms, g[i])
    {
      assert g[i] == fs[i + 1] && g[i - 1] == fs[i];
    }
  }

  lemma {:induction false} OwnMark(records: seq<C.Rec>, rest: seq<C.Rec>)
    requires OwnRecords(records)
    ensures C.Mark(records + rest) == |records| + C.Mark(rest)
    decreases |records|
  {
    if records == [] {
      assert records + rest == rest;
    } else {
      assert (records + rest)[1..] == records[1..] + rest;
      OwnMark(records[1..], rest);
    }
  }

  /** Every variable that a function mentions is its own or in a cell. */
  lemma MentionInCell(fs: seq<Function>, name: C.Sym, j: nat)
    requires Nest(fs) && name != 0 && N.Occurs(N.Sym(name), fs[0].forms)
    requires C.Scope(Environment(fs), name, C.Variable, false) == Some(j)
    ensures j < C.Mark(Environment(fs)) || C.IsHeap(Environment(fs)[j])
  {
    hide N.Occurs, Referenced, StandsIn, C.Scope, C.Mark, Decided;
    var env, own := Environment(fs), |fs[0].records|;
    if |fs| == 1 {
      OwnMark(env, []);
      assert env + [] == env;
    } else {
      OwnMark(fs[0].records, [C.Environment] + Environment(fs[1..]));
      MarkHere(Environment(fs[1..]));
      assert env == fs[0].records + ([C.Environment] + Environment(fs[1..]));
      if j >= own {
        assert env[own] == C.Environment;
        assert env[j] == Environment(fs[1..])[j - own - 1];
        MentionReferenced(name, fs[0].forms, fs[1]);
        InnerNest(fs);
        BindingsInCells(fs[1..], name, j - own - 1);
      }
    }
  }

  lemma MarkHere(rest: seq<C.Rec>)
    ensures C.Mark([C.Environment] + rest) == 0
  {
  }

  /**
   So for every nest of functions and every variable that the innermost one mentions, its code loads
   the very word that the binder put in its frame.
   */
  lemma MentionsShared(fs: seq<Function>, words: seq<nat>, name: C.Sym, j: nat)
    requires Nest(fs) && name != 0 && N.Occurs(N.Sym(name), fs[0].forms)
    requires |words| == |Environment(fs)| && C.Scope(Environment(fs), name, C.Variable, false) == Some(j)
    ensures C.Fetch(Environment(fs), words, C.Find(Environment(fs), name, C.Variable, false)) == words[j]
  {
    hide N.Occurs, Decided, StandsIn, C.Scope, C.Fetch, C.Find;
    MentionInCell(fs, name, j);
    C.SharedCell(Environment(fs), words, name, C.Variable, j);
  }

  /** And so does a read, wherever the name is in scope for it. */
  lemma MentionsRead(fs: seq<Function>, words: seq<nat>, name: C.Sym, j: nat)
    requires Nest(fs) && name != 0 && N.Occurs(N.Sym(name), fs[0].forms)
    requires |words| == |Environment(fs)| && C.Scope(Environment(fs), name, C.Variable, true) == Some(j)
    ensures C.Fetch(Environment(fs), words, C.Find(Environment(fs), name, C.Variable, true)) == words[j]
  {
    hide N.Occurs, Decided, StandsIn, C.Scope, C.Fetch, C.Find;
    C.ReadsAgree(Environment(fs), name, C.Variable);
    MentionInCell(fs, name, j);
    C.SharedRead(Environment(fs), words, name, C.Variable, j);
  }
}
