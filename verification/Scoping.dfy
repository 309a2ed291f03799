/**
 What the compiler accepts, said from the language alone: a form is in scope when each variable is
 bound or global, each RETURN-FROM is inside a block of its name, and each GO is inside a TAGBODY
 with its tag.  No code, record or stack index has a part in it.
 */
module Scoping {
  import opened Runtime
  import opened Lisp
  import opened CodeGen
  import opened Program

  /** The names that a form may refer to. */
  datatype Names = Names(vars: set<Name>, blocks: set<Name>, tags: set<Name>)

  function Bound(s: Names, vars: set<Name>): Names {
    s.(vars := s.vars + vars)
  }

  function NamesBound(b: Binds): set<Name> {
    match b case NoBinds => {} case Binds(n, _, rest) => {n} + NamesBound(rest)
  }

  function TagsOf(items: Items): set<Name> {
    match items
    case NoItems => {}
    case Tag(t, rest) => {t} + TagsOf(rest)
    case Stmt(_, rest) => TagsOf(rest)
  }

  predicate Scoped(rt: Runtime, x: Form, s: Names) {
    match x
    case Lit(_) => true
    case SymLit(_, _) => true
    case NilForm => true
    case Var(n) => n in s.vars || n in rt.vars
    case Setq(pairs) => ScopedSetq(rt, pairs, s)
    case Progn(body) => ScopedForms(rt, body, s)
    case If(test, thn) => Scoped(rt, test, s) && Scoped(rt, thn, s)
    case IfElse(test, thn, els) => Scoped(rt, test, s) && Scoped(rt, thn, s) && Scoped(rt, els, s)
    case Let(binds, body) => ScopedInits(rt, binds, s) && ScopedForms(rt, body, Bound(s, NamesBound(binds)))
    case LetStar(chain) => ScopedChain(rt, chain, s)
    case Block(name, body) => ScopedForms(rt, body, s.(blocks := s.blocks + {name}))
    case ReturnFrom(name, value) => name in s.blocks && Scoped(rt, value, s)
    case Tagbody(items) => ScopedItems(rt, items, s.(tags := s.tags + TagsOf(items)))
    case Go(tag) => tag in s.tags
    case ArithCall(_, arg1, arg2) => Scoped(rt, arg1, s) && Scoped(rt, arg2, s)
    case NumEqual(arg1, arg2) => Scoped(rt, arg1, s) && Scoped(rt, arg2, s)
    case Compare(_, arg1, arg2) => Scoped(rt, arg1, s) && Scoped(rt, arg2, s)
    case Eq(arg1, arg2) => Scoped(rt, arg1, s) && Scoped(rt, arg2, s)
    case Null(arg) => Scoped(rt, arg, s)
  }

  predicate ScopedForms(rt: Runtime, body: Forms, s: Names) {
    match body case NoForms => true case Forms(x, rest) => Scoped(rt, x, s) && ScopedForms(rt, rest, s)
  }

  predicate ScopedSetq(rt: Runtime, pairs: Binds, s: Names) {
    match pairs
    case NoBinds => true
    case Binds(n, x, rest) => (n in s.vars || n in rt.vars) && Scoped(rt, x, s) && ScopedSetq(rt, rest, s)
  }

  /** LET: every initial value is outside the scope of the variables. */
  predicate ScopedInits(rt: Runtime, b: Binds, s: Names) {
    match b case NoBinds => true case Binds(_, x, rest) => Scoped(rt, x, s) && ScopedInits(rt, rest, s)
  }

  /** LET*: each variable is in scope from the next initial value on. */
  predicate ScopedChain(rt: Runtime, b: Chain, s: Names) {
    match b
    case Body(body) => ScopedForms(rt, body, s)
    case Bind(n, x, rest) => Scoped(rt, x, s) && ScopedChain(rt, rest, Bound(s, {n}))
  }

  predicate ScopedItems(rt: Runtime, items: Items, s: Names) {
    match items
    case NoItems => true
    case Tag(_, rest) => ScopedItems(rt, rest, s)
    case Stmt(x, rest) => Scoped(rt, x, s) && ScopedItems(rt, rest, s)
  }

  // ----- the records name what is in scope -----

  /** The records are found under exactly these names, and none was made above the stack index. */
  ghost predicate Found(recs: seq<Rec>, si: int, s: Names) {
    && (forall n :: n in s.vars <==> FindLet(recs, n) >= 0)
    && (forall n :: n in s.blocks <==> FindBlock(recs, n) >= 0)
    && (forall n :: n in s.tags <==> FindTags(recs, n) >= 0)
    && (forall k :: 0 <= k < |recs| && !recs[k].LetRec? ==> recs[k].depth <= si)
  }

  lemma FoundPush(recs: seq<Rec>, si: int, s: Names, r: Rec)
    requires Found(recs, si, s) && (!r.LetRec? ==> r.depth <= si)
    ensures r.LetRec? ==> Found(recs + [r], si, Bound(s, {r.name}))
    ensures r.BlockRec? ==> Found(recs + [r], si, s.(blocks := s.blocks + {r.name}))
    ensures r.TagsRec? ==> forall tags: set<Name> :: (forall t :: t in tags <==> t in r.tags) ==> Found(recs + [r], si, s.(tags := s.tags + tags))
  {
    var all := recs + [r];
    assert all[..|all| - 1] == recs;
    assert forall n :: FindLet(all, n) >= 0 <==> (r.LetRec? && r.name == n) || FindLet(recs, n) >= 0;
    assert forall n :: FindBlock(all, n) >= 0 <==> (r.BlockRec? && r.name == n) || FindBlock(recs, n) >= 0;
    assert forall n :: FindTags(all, n) >= 0 <==> (r.TagsRec? && n in r.tags) || FindTags(recs, n) >= 0;
  }

  lemma {:induction false} FoundLets(recs: seq<Rec>, si: int, s: Names, b: Binds, env: int)
    requires Found(recs, si, s)
    ensures Found(recs + LetRecs(b, env), si, Bound(s, NamesBound(b)))
    decreases b
  {
    hide Found, Slots;
    if b.NoBinds? {
      assert recs + LetRecs(b, env) == recs && Bound(s, {}) == s;
    } else {
      var inner, r := LetRecs(b.rest, env + 4 + 4 * Slots(b.init)), LetRec(b.name, SlotOffset(env));
      FoundLets(recs, si, s, b.rest, env + 4 + 4 * Slots(b.init));
      FoundPush(recs + inner, si, Bound(s, NamesBound(b.rest)), r);
      assert recs + LetRecs(b, env) == recs + inner + [r];
      assert Bound(Bound(s, NamesBound(b.rest)), {b.name}) == Bound(s, NamesBound(b));
    }
  }

  lemma {:induction false} TagsNamed(items: Items)
    ensures forall t :: t in TagsOf(items) <==> t in TagNames(items)
  {
    match items
    case NoItems =>
    case Tag(_, rest) => TagsNamed(rest);
    case Stmt(_, rest) => TagsNamed(rest);
  }

  lemma FoundHigher(recs: seq<Rec>, si: int, s: Names, more: int)
    requires Found(recs, si, s) && si <= more
    ensures Found(recs, more, s)
  {
  }

  // ----- the compiler accepts what is in scope -----

  /** The index after a form without stack GOs: the operand is pushed, or nothing. */
  lemma NextFound(cx: Context, x: Form, dest: Dest, s: Names)
    requires Found(cx.recs, cx.si, s) && Count(x, dest, StackGo) == 0
    ensures var cx1 := Next(cx, x, dest);
            cx1.recs == cx.recs && cx1.si == cx.si + (if dest == ToStack then 4 else 0) && Found(cx1.recs, cx1.si, s)
  {
    hide Found, Slots, Count;
    FoundHigher(cx.recs, cx.si, s, Next(cx, x, dest).si);
  }

  /**
   Where the records name what is in scope and no GO in the form is compiled for the stack, the
   compiler accepts the form exactly when it is in scope.
   */
  lemma {:induction false} AcceptsExact(rt: Runtime, x: Form, dest: Dest, cx: Context, s: Names)
    requires Found(cx.recs, cx.si, s) && Count(x, dest, StackGo) == 0
    ensures Accepts(rt, x, dest, cx) <==> Scoped(rt, x, s)
    decreases x, 3
  {
    hide Found, Next, Slots, Count, Accepts, Scoped;
    match x
    case If(_, _) => IfExact(rt, x, dest, cx, s);
    case IfElse(_, _, _) => IfElseExact(rt, x, dest, cx, s);
    case Let(_, _) => LetExact(rt, x, dest, cx, s);
    case Block(_, _) => BlockExact(rt, x, dest, cx, s);
    case ReturnFrom(_, _) => ReturnExact(rt, x, dest, cx, s);
    case Tagbody(_) => TagbodyExact(rt, x, dest, cx, s);
    case ArithCall(_, _, _) => CallExact(rt, x, dest, cx, s);
    case NumEqual(_, _) => CallExact(rt, x, dest, cx, s);
    case Compare(_, _, _) => CallExact(rt, x, dest, cx, s);
    case Eq(_, _) => CallExact(rt, x, dest, cx, s);
    case Setq(_) => ListExact(rt, x, dest, cx, s);
    case Progn(_) => ListExact(rt, x, dest, cx, s);
    case LetStar(_) => ListExact(rt, x, dest, cx, s);
    case Null(_) => NullExact(rt, x, dest, cx, s);
    case Go(tag) => GoExact(rt, tag, dest, cx, s);
    case _ => AtomExact(rt, x, dest, cx, s);
  }

  lemma AtomExact(rt: Runtime, x: Form, dest: Dest, cx: Context, s: Names)
    requires x.Lit? || x.SymLit? || x.NilForm? || x.Var?
    requires Found(cx.recs, cx.si, s)
    ensures Accepts(rt, x, dest, cx) <==> Scoped(rt, x, s)
  {
  }

  lemma {:induction false} NullExact(rt: Runtime, x: Form, dest: Dest, cx: Context, s: Names)
    requires x.Null? && Found(cx.recs, cx.si, s) && Count(x, dest, StackGo) == 0
    ensures Accepts(rt, x, dest, cx) <==> Scoped(rt, x, s)
    decreases x, 2
  {
    hide Found;
    AcceptsExact(rt, x.arg, ToOperand, cx, s);
  }

  /** A list of forms, of assignments or of bindings one after the other. */
  lemma {:induction false} ListExact(rt: Runtime, x: Form, dest: Dest, cx: Context, s: Names)
    requires x.Setq? || x.Progn? || x.LetStar?
    requires Found(cx.recs, cx.si, s) && Count(x, dest, StackGo) == 0
    ensures Accepts(rt, x, dest, cx) <==> Scoped(rt, x, s)
    decreases x, 2
  {
    hide Found, CountInits, CountForms, CountChain, AcceptsSetq, AcceptsForms, AcceptsChain, ScopedSetq, ScopedForms, ScopedChain;
    match x
    case Setq(pairs) => SetqExact(rt, pairs, cx, s);
    case Progn(body) => FormsExact(rt, body, dest, cx, s);
    case LetStar(chain) => ChainExact(rt, chain, cx, s);
  }

  lemma {:induction false} BlockExact(rt: Runtime, x: Form, dest: Dest, cx: Context, s: Names)
    requires x.Block? && Found(cx.recs, cx.si, s) && Count(x, dest, StackGo) == 0
    ensures Accepts(rt, x, dest, cx) <==> Scoped(rt, x, s)
    decreases x, 2
  {
    hide Found, CountForms, AcceptsForms, ScopedForms;
    FoundPush(cx.recs, cx.si, s, BlockRec(x.name, cx.si));
    FormsExact(rt, x.body, ToEax, BlockContext(cx, x.name), s.(blocks := s.blocks + {x.name}));
  }

  lemma FoundVar(cx: Context, n: Name, s: Names)
    requires Found(cx.recs, cx.si, s)
    ensures FindLet(cx.recs, n) >= 0 <==> n in s.vars
  {
  }

  lemma {:induction false} IfExact(rt: Runtime, x: Form, dest: Dest, cx: Context, s: Names)
    requires x.If? && Found(cx.recs, cx.si, s) && Count(x, dest, StackGo) == 0
    ensures Accepts(rt, x, dest, cx) <==> Scoped(rt, x, s)
    decreases x, 2
  {
    hide Found, Next, Slots;
    var d := TestDest(x.test, x.test.NumEqual?);
    NextFound(cx, x.test, d, s);
    AcceptsExact(rt, x.test, d, cx, s);
    AcceptsExact(rt, x.thn, ToEax, Next(cx, x.test, d), s);
  }

  lemma {:induction false} IfElseExact(rt: Runtime, x: Form, dest: Dest, cx: Context, s: Names)
    requires x.IfElse? && Found(cx.recs, cx.si, s) && Count(x, dest, StackGo) == 0
    ensures Accepts(rt, x, dest, cx) <==> Scoped(rt, x, s)
    decreases x, 2
  {
    hide Found, Next, Slots;
    var d := TestDest(x.test, true);
    var cx1 := Next(cx, x.test, d);
    NextFound(cx, x.test, d, s);
    NextFound(cx1, x.thn, ToEax, s);
    AcceptsExact(rt, x.test, d, cx, s);
    AcceptsExact(rt, x.thn, ToEax, cx1, s);
    AcceptsExact(rt, x.els, ToEax, Next(cx1, x.thn, ToEax), s);
  }

  lemma {:induction false} LetExact(rt: Runtime, x: Form, dest: Dest, cx: Context, s: Names)
    requires x.Let? && Found(cx.recs, cx.si, s) && Count(x, dest, StackGo) == 0
    ensures Accepts(rt, x, dest, cx) <==> Scoped(rt, x, s)
    decreases x, 2
  {
    hide Found, Slots, LetRecs, CountInits, CountForms, SlotsInits;
    InitsExact(rt, x.binds, cx, s);
    FoundLets(cx.recs, cx.si, s, x.binds, cx.env);
    CountInside(x, dest);
    FormsExact(rt, x.body, ToEax, LetContext(cx, x.binds), Bound(s, NamesBound(x.binds)));
  }

  lemma CountInside(x: Form, dest: Dest)
    requires x.Let?
    ensures Count(x, dest, StackGo) == CountInits(x.binds, StackGo) + CountForms(x.body, ToEax, StackGo)
  {
    hide CountInits, CountForms, BoundNames;
  }

  lemma {:induction false} ReturnExact(rt: Runtime, x: Form, dest: Dest, cx: Context, s: Names)
    requires x.ReturnFrom? && Found(cx.recs, cx.si, s) && Count(x, dest, StackGo) == 0
    ensures Accepts(rt, x, dest, cx) <==> Scoped(rt, x, s)
    decreases x, 2
  {
    hide Slots, Next;
    NextFound(cx, x.value, dest, s);
    AcceptsExact(rt, x.value, dest, cx, s);
  }

  lemma GoExact(rt: Runtime, tag: Name, dest: Dest, cx: Context, s: Names)
    requires Found(cx.recs, cx.si, s)
    ensures Accepts(rt, Go(tag), dest, cx) <==> Scoped(rt, Go(tag), s)
  {
  }

  lemma {:induction false} TagbodyExact(rt: Runtime, x: Form, dest: Dest, cx: Context, s: Names)
    requires x.Tagbody? && Found(cx.recs, cx.si, s) && Count(x, dest, StackGo) == 0
    ensures Accepts(rt, x, dest, cx) <==> Scoped(rt, x, s)
    decreases x, 2
  {
    hide Found, CountItems;
    TagsNamed(x.items);
    FoundPush(cx.recs, cx.si, s, TagsRec(TagNames(x.items), cx.si));
    ItemsExact(rt, x.items, TagsContext(cx, x.items), s.(tags := s.tags + TagsOf(x.items)));
    if !HasStmt(x.items) {
      OnlyTags(rt, x.items, s.(tags := s.tags + TagsOf(x.items)));
    }
  }

  lemma {:induction false} OnlyTags(rt: Runtime, items: Items, s: Names)
    requires !HasStmt(items)
    ensures ScopedItems(rt, items, s)
  {
    if items.Tag? {
      OnlyTags(rt, items.rest, s);
    }
  }

  lemma {:induction false} CallExact(rt: Runtime, x: Form, dest: Dest, cx: Context, s: Names)
    requires x.ArithCall? || x.NumEqual? || x.Compare? || x.Eq?
    requires Found(cx.recs, cx.si, s) && Count(x, dest, StackGo) == 0
    ensures Accepts(rt, x, dest, cx) <==> Scoped(rt, x, s)
    decreases x, 2
  {
    hide Found, Slots, Next, Arg1Dest;
    var d := Arg1Dest(x);
    NextFound(cx, x.arg1, d, s);
    AcceptsExact(rt, x.arg1, d, cx, s);
    AcceptsExact(rt, x.arg2, ToOperand, Next(cx, x.arg1, d), s);
  }

  lemma {:induction false} FormsExact(rt: Runtime, body: Forms, dest: Dest, cx: Context, s: Names)
    requires Found(cx.recs, cx.si, s) && CountForms(body, dest, StackGo) == 0
    ensures AcceptsForms(rt, body, dest, cx) <==> ScopedForms(rt, body, s)
    decreases body, 1
  {
    hide Found, Next, Slots, Count, Accepts, Scoped;
    if body.Forms? {
      if body.tail.NoForms? {
        AcceptsExact(rt, body.head, dest, cx, s);
        assert ScopedForms(rt, body.tail, s);
      } else {
        SeqExact(rt, body, cx, s);
      }
    }
  }

  lemma {:induction false} SeqExact(rt: Runtime, body: Forms, cx: Context, s: Names)
    requires Found(cx.recs, cx.si, s) && CountSeq(body, StackGo) == 0
    ensures AcceptsSeq(rt, body, cx) <==> ScopedForms(rt, body, s)
    decreases body, 0
  {
    hide Found, Next, Slots, Count, Accepts, Scoped;
    if body.Forms? {
      NextFound(cx, body.head, ToEax, s);
      AcceptsExact(rt, body.head, ToEax, cx, s);
      SeqExact(rt, body.tail, Next(cx, body.head, ToEax), s);
    }
  }

  lemma {:induction false} SetqExact(rt: Runtime, pairs: Binds, cx: Context, s: Names)
    requires Found(cx.recs, cx.si, s) && CountInits(pairs, StackGo) == 0
    ensures AcceptsSetq(rt, pairs, cx) <==> ScopedSetq(rt, pairs, s)
    decreases pairs, 0
  {
    hide Found, Next, Slots, Count, Accepts, Scoped;
    if pairs.Binds? {
      FoundVar(cx, pairs.name, s);
      NextFound(cx, pairs.init, ToOperand, s);
      AcceptsExact(rt, pairs.init, ToOperand, cx, s);
      SetqExact(rt, pairs.rest, Next(cx, pairs.init, ToOperand), s);
    }
  }

  lemma {:induction false} InitsExact(rt: Runtime, b: Binds, cx: Context, s: Names)
    requires Found(cx.recs, cx.si, s) && CountInits(b, StackGo) == 0
    ensures AcceptsInits(rt, b, cx) <==> ScopedInits(rt, b, s)
    decreases b, 0
  {
    hide Found, Next, Slots, Count, Accepts, Scoped;
    if b.Binds? {
      var cx1 := cx.(env := cx.env + 4);
      NextFound(cx1, b.init, ToOperand, s);
      AcceptsExact(rt, b.init, ToOperand, cx1, s);
      InitsExact(rt, b.rest, Next(cx1, b.init, ToOperand), s);
    }
  }

  lemma {:induction false} ChainExact(rt: Runtime, b: Chain, cx: Context, s: Names)
    requires Found(cx.recs, cx.si, s) && CountChain(b, StackGo) == 0
    ensures AcceptsChain(rt, b, cx) <==> ScopedChain(rt, b, s)
    decreases b, 0
  {
    hide Found, Next, Slots, Count, CountForms, Accepts, AcceptsForms, Scoped, ScopedForms;
    match b
    case Body(body) => FormsExact(rt, body, ToEax, cx, s);
    case Bind(n, x, rest) =>
      var cx1 := cx.(env := cx.env + 4);
      NextFound(cx1, x, ToOperand, s);
      AcceptsExact(rt, x, ToOperand, cx1, s);
      FoundPush(cx.recs, Next(cx1, x, ToOperand).si, s, LetRec(n, SlotOffset(cx.env)));
      ChainExact(rt, rest, BindContext(cx, n, x), Bound(s, {n}));
  }

  lemma {:induction false} ItemsExact(rt: Runtime, items: Items, cx: Context, s: Names)
    requires Found(cx.recs, cx.si, s) && CountItems(items, StackGo) == 0
    ensures AcceptsItems(rt, items, cx) <==> ScopedItems(rt, items, s)
    decreases items, 0
  {
    hide Found, Next, Slots, Count, Accepts, Scoped;
    match items
    case NoItems =>
    case Tag(_, rest) => ItemsExact(rt, rest, cx, s);
    case Stmt(x, rest) =>
      NextFound(cx, x, ToEax, s);
      AcceptsExact(rt, x, ToEax, cx, s);
      ItemsExact(rt, rest, Next(cx, x, ToEax), s);
  }

  /** The names in scope at the top of an expression: none but the global variables. */
  const NothingInScope := Names({}, {}, {})

  /** Compilation succeeds exactly on the expressions that are in scope and have no GO compiled for the stack. */
  lemma CompilableExact(rt: Runtime, x: Form, check: bool)
    ensures Compilable(rt, x, check) <==> Scoped(rt, x, NothingInScope) && Count(x, ToEax, StackGo) == 0
  {
    hide Accepts, Scoped, Count;
    assert Start(check).recs == [];
    if Count(x, ToEax, StackGo) == 0 {
      AcceptsExact(rt, x, ToEax, Start(check), NothingInScope);
    }
  }
}
