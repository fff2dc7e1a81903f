/** From collected paths to context attributes: what registering an expression loads, and when that is enough. */
module CelContext {
  import opened Prelude
  import opened CelProperties

  const REQUEST := "request"
  const REQUEST_BODY := "request.body"
  const LLM := "llm"
  const LLM_PROMPT := "llm.prompt"
  const LLM_COMPLETION := "llm.completion"
  const RESPONSE := "response"
  const JWT := "jwt"
  const MCP := "mcp"

  /** The variables that are loaded only if registered; `mcp` is always passed along. */
  const GATED: set<string> := {REQUEST, RESPONSE, JWT, LLM}

  /** The two-token paths that are recorded under a name of their own, and then not under their first token. */
  predicate Special(p: Path) {
    |p| >= 2 && ((p[0] == REQUEST && p[1] == "body") || (p[0] == LLM && (p[1] == "prompt" || p[1] == "completion")))
  }

  function AttributeOf(p: Path): string
    requires p != []
  {
    if !Special(p) then p[0]
    else if p[0] == REQUEST then REQUEST_BODY
    else if p[1] == "prompt" then LLM_PROMPT
    else LLM_COMPLETION
  }

  function Attributes(e: Expr): set<string> {
    set p | p in Props(e, []).0 && p != [] :: AttributeOf(p)
  }

  ghost predicate RecordedAs(p: Path, a: string) {
    p != [] &&
    if ["request", "body"] <= p then a == "request.body"
    else if ["llm", "prompt"] <= p then a == "llm.prompt"
    else if ["llm", "completion"] <= p then a == "llm.completion"
    else a == p[0]
  }

  lemma RecordedIs(p: Path, a: string)
    ensures RecordedAs(p, a) <==> p != [] && a == AttributeOf(p)
  {
    if |p| >= 2 {
      assert p[..2] == [p[0], p[1]];
      assert forall x: string, y: string :: [x, y] <= p <==> p[0] == x && p[1] == y;
    }
  }

  /** An attribute is recorded exactly for the paths that begin with its variable, or, for a body, prompt or completion,
      for those that begin with its two tokens. */
  lemma AttributesAre(e: Expr, a: string)
    ensures a in Attributes(e) <==> exists p :: p in Props(e, []).0 && RecordedAs(p, a)
  {
    forall p ensures RecordedAs(p, a) <==> p != [] && a == AttributeOf(p) { RecordedIs(p, a); }
    hide RecordedAs, AttributeOf;
  }

  /** Some path starts with the variable and is not special. */
  ghost predicate Collects(paths: seq<Path>, x: string) {
    exists p :: p in paths && p != [] && p[0] == x && !Special(p)
  }

  /** A variable is loaded for an expression exactly if the walk collects it. */
  lemma LoadedIff(e: Expr, x: string)
    requires x in GATED
    ensures x in Attributes(e) <==> Collects(Props(e, []).0, x)
  {}

  // Registering as a condition on the expression.

  lemma CollectsAppend(a: seq<Path>, b: seq<Path>, x: string)
    ensures Collects(a + b, x) <==> Collects(a, x) || Collects(b, x)
  {
    if Collects(a, x) || Collects(b, x) {
      var p :| (p in a || p in b) && p != [] && p[0] == x && !Special(p);
      assert p in a + b;
    }
  }

  /** Whether selecting `first` from a variable takes it for a special path. */
  predicate SpecialUse(x: string, first: Option<string>) {
    (x == REQUEST && first == Some("body")) || (x == LLM && (first == Some("prompt") || first == Some("completion")))
  }

  /** The variable has a use, outside ternary middles, indices and field values, from which none of those attributes is
      selected; `first` is the attribute selected from the whole expression. */
  predicate UsedPlainly(e: Expr, x: string, first: Option<string>)
    decreases e, 1
  {
    match e
    case Binary(_, l, r) => UsedPlainly(l, x, None) || UsedPlainly(r, x, None)
    case Ternary(c, _, b) => UsedPlainly(c, x, None) || UsedPlainly(b, x, None)
    case Unary(o) => UsedPlainly(o, x, None)
    case Select(b, m) => UsedPlainly(b, x, if m.Attribute? then Some(m.name) else first)
    case Call(_, target, args) => (target.Some? && UsedPlainly(target.value, x, None)) || UsedPlainlyAny(args, x)
    case List(items) => UsedPlainlyAny(items, x)
    case Map(items) => UsedPlainlyAny(items, x)
    case Atom(_) => false
    case Ident(y) => y == x && !SpecialUse(x, first)
  }

  predicate UsedPlainlyAny(es: seq<Expr>, x: string)
    decreases es, 0
  {
    es != [] && (UsedPlainlyAny(es[..|es| - 1], x) || UsedPlainly(es[|es| - 1], x, None))
  }

  lemma {:induction false} PlainChains(e: Expr, selected: Path, x: string)
    ensures Collects(Chains(e, selected), x) <==> UsedPlainly(e, x, if selected == [] then None else Some(selected[0]))
    decreases e, 1
  {
    match e
    case Binary(_, l, r) =>
      PlainChains(l, [], x);
      PlainChains(r, [], x);
      CollectsAppend(Chains(l, []), Chains(r, []), x);
    case Ternary(c, _, b) =>
      PlainChains(c, [], x);
      PlainChains(b, [], x);
      CollectsAppend(Chains(c, []), Chains(b, []), x);
    case Unary(o) => PlainChains(o, [], x);
    case Select(b, m) => PlainChains(b, if m.Attribute? then [m.name] + selected else selected, x);
    case Call(_, target, args) =>
      if target.Some? { PlainChains(target.value, [], x); }
      PlainChainsAll(args, x);
      CollectsAppend(if target.Some? then Chains(target.value, []) else [], ChainsAll(args), x);
    case List(items) => PlainChainsAll(items, x);
    case Map(items) => PlainChainsAll(items, x);
    case Atom(_) =>
    case Ident(y) =>
      var chain := [y] + selected;
      assert chain[1..] == selected && Chains(e, selected) == [chain];
      assert y == x && !Special(chain) ==> chain in Chains(e, selected);
  }

  lemma {:induction false} PlainChainsAll(es: seq<Expr>, x: string)
    ensures Collects(ChainsAll(es), x) <==> UsedPlainlyAny(es, x)
    decreases es, 0
  {
    if es != [] {
      PlainChainsAll(es[..|es| - 1], x);
      PlainChains(es[|es| - 1], [], x);
      CollectsAppend(ChainsAll(es[..|es| - 1]), Chains(es[|es| - 1], []), x);
    }
  }

  /** A tidy expression loads exactly the variables it uses plainly. */
  lemma TidyLoadedIff(e: Expr, x: string)
    requires x in GATED && Tidy(e)
    ensures x in Attributes(e) <==> UsedPlainly(e, x, None)
  {
    LoadedIff(e, x);
    PropsAreChains(e, []);
    PlainChains(e, [], x);
  }

  function Registered(es: seq<Expr>): set<string> {
    if es == [] then {} else Registered(es[..|es| - 1]) + Attributes(es[|es| - 1])
  }

  lemma {:induction false} RegisteredHas(es: seq<Expr>, i: nat)
    requires i < |es|
    ensures Attributes(es[i]) <= Registered(es)
  {
    if i < |es| - 1 { RegisteredHas(es[..|es| - 1], i); }
  }

  class ContextBuilder {
    var attributes: set<string>
    ghost var registered: seq<Expr>

    /** The attributes are those of everything registered, so that nothing any of it loads is lost. */
    ghost predicate Valid()
      reads this
    {
      attributes == Registered(registered) && forall i :: 0 <= i < |registered| ==> Attributes(registered[i]) <= attributes
    }

    constructor ()
      ensures Valid() && registered == []
    {
      attributes, registered := {}, [];
    }

    method RegisterExpression(e: Expr)
      requires Valid()
      modifies this
      ensures Valid() && registered == old(registered) + [e]
    {
      attributes := attributes + Attributes(e);
      registered := registered + [e];
      assert registered[..|registered| - 1] == old(registered);
    }
  }

  /** The context built with some attributes registered: a gated variable that is not loaded is null. */
  function Build<V>(m: Meaning<V>, full: Context<V>, attributes: set<string>): Context<V> {
    map x | x in GATED + {MCP} :: if x in full && (x in attributes || x == MCP) then full[x] else m.absent
  }

  /** The context has the five variables; each is what it is with everything there, or null if it is not there or gated and
      not registered. */
  lemma ContextIs<V>(m: Meaning<V>, full: Context<V>, attributes: set<string>, x: string)
    ensures x in Build(m, full, attributes) <==> x == "request" || x == "response" || x == "jwt" || x == "llm" || x == "mcp"
    ensures x in Build(m, full, attributes) ==>
      Build(m, full, attributes)[x] == if x in full && (x == "mcp" || x in attributes) then full[x] else m.absent
    ensures x in Build(m, full, GATED) ==> Build(m, full, GATED)[x] == if x in full then full[x] else m.absent
  {}

  /** An expression all of whose gated identifiers are registered, by itself or by others, evaluates as with everything
      loaded. */
  lemma RegisteredSuffices<V>(m: Meaning<V>, es: seq<Expr>, e: Expr, full: Context<V>)
    requires Idents(e) * GATED <= Registered(es)
    ensures Eval(m, e, Build(m, full, Registered(es))) == Eval(m, e, Build(m, full, GATED))
  {
    EvalReadsIdents(m, e, Build(m, full, Registered(es)), Build(m, full, GATED));
  }

  /** A registered tidy expression does if it uses plainly each gated variable it mentions. */
  lemma RegisteringIsEnough<V>(m: Meaning<V>, es: seq<Expr>, i: nat, full: Context<V>)
    requires i < |es| && Tidy(es[i])
    requires forall x :: x in Idents(es[i]) * GATED ==> UsedPlainly(es[i], x, None)
    ensures Eval(m, es[i], Build(m, full, Registered(es))) == Eval(m, es[i], Build(m, full, GATED))
  {
    RegisteredHas(es, i);
    forall x | x in Idents(es[i]) * GATED ensures x in Registered(es) {
      TidyLoadedIff(es[i], x);
    }
    RegisteredSuffices(m, es, es[i], full);
  }

  /** So does any registered expression that hides no identifier from the walk and of which no special path is collected. */
  lemma HidingNothingIsEnough<V>(m: Meaning<V>, es: seq<Expr>, i: nat, full: Context<V>)
    requires i < |es| && NothingHidden(es[i])
    requires forall p :: p in Props(es[i], []).0 ==> !Special(p)
    ensures Eval(m, es[i], Build(m, full, Registered(es))) == Eval(m, es[i], Build(m, full, GATED))
  {
    var e := es[i];
    FirstsAreIdents(e, []);
    RegisteredHas(es, i);
    forall x | x in Idents(e) * GATED ensures x in Registered(es) {
      var p :| p in Props(e, []).0 && p != [] && p[0] == x;
      LoadedIff(e, x);
    }
    RegisteredSuffices(m, es, e, full);
  }

  // When it is enough, exactly.

  /** Marks travel: every operation's result is marked if an operand is. `truth` is the truth of every value, and the
      macros bind their variable to their target, once. */
  function Marking(truth: Option<bool>, macros: set<string>): Meaning<bool> {
    Meaning(false, n => false, v => truth, (op, a, b) => Ok(a || b), v => Ok(v), (v, name) => Ok(v), (v, i) => Ok(v || i),
            (v, names, vs) => Ok(v || true in vs), (fn, v) => if fn in macros then Some([v]) else None,
            (fn, v, rs) => Ok(v || Ok(true) in rs),
            (fn, t, vs) => Ok(t == Some(true) || true in vs), vs => true in vs, vs => Ok(true in vs))
  }

  predicate TernaryFree(e: Expr)
    decreases e, 1
  {
    match e
    case Binary(_, l, r) => TernaryFree(l) && TernaryFree(r)
    case Ternary(_, _, _) => false
    case Unary(o) => TernaryFree(o)
    case Select(b, Attribute(_)) => TernaryFree(b)
    case Select(b, Index(i)) => TernaryFree(b) && TernaryFree(i)
    case Select(b, Fields(_, vs)) => TernaryFree(b) && TernaryFreeAll(vs)
    case Call(_, target, args) => (target.Some? ==> TernaryFree(target.value)) && TernaryFreeAll(args)
    case List(items) => TernaryFreeAll(items)
    case Map(items) => TernaryFreeAll(items)
    case Atom(_) => true
    case Ident(_) => true
  }

  predicate TernaryFreeAll(es: seq<Expr>)
    decreases es, 0
  {
    es == [] || (TernaryFreeAll(es[..|es| - 1]) && TernaryFree(es[|es| - 1]))
  }

  ghost predicate Marked(xs: set<string>, ctx: Context<bool>)
    requires xs <= ctx.Keys
  {
    exists x :: x in xs && ctx[x]
  }

  /** A value is marked exactly if one of the expression's free identifiers is. */
  lemma {:induction false} MarksSpread(e: Expr, macros: set<string>, ctx: Context<bool>)
    requires TernaryFree(e) && Free(e, macros) <= ctx.Keys
    ensures Eval(Marking(None, macros), e, ctx) == Ok(Marked(Free(e, macros), ctx))
    decreases e, 1
  {
    match e
    case Binary(_, l, r) =>
      MarksSpread(l, macros, ctx);
      MarksSpread(r, macros, ctx);
    case Unary(o) => MarksSpread(o, macros, ctx);
    case Select(b, member) =>
      MarksSpread(b, macros, ctx);
      if member.Index? {
        MarksSpread(member.index, macros, ctx);
      } else if member.Fields? {
        MarksSpreadAll(member.values, macros, ctx);
      }
    case Call(_, target, args) =>
      if target.Some? { MarksSpread(target.value, macros, ctx); }
      if Binds(macros, e) {
        MarksSpreadInto(e, macros, ctx);
      } else {
        MarksSpreadAll(args, macros, ctx);
      }
    case List(items) => MarksSpreadAll(items, macros, ctx);
    case Map(items) => MarksSpreadAll(items, macros, ctx);
    case Atom(_) =>
    case Ident(_) =>
  }

  /** The body of a macro sees its target's mark through the bound variable. */
  lemma {:induction false} MarksSpreadInto(e: Expr, macros: set<string>, ctx: Context<bool>)
    requires TernaryFree(e) && Binds(macros, e) && Free(e, macros) <= ctx.Keys
    requires Eval(Marking(None, macros), e.target.value, ctx) == Ok(Marked(Free(e.target.value, macros), ctx))
    ensures Eval(Marking(None, macros), e, ctx) == Ok(Marked(Free(e, macros), ctx))
    decreases e, 0
  {
    var m, x, body, v := Marking(None, macros), e.args[0].name, e.args[1], Marked(Free(e.target.value, macros), ctx);
    var inner := ctx[x := v];
    MarksSpread(body, macros, inner);
    assert [v][..0] == [] && EvalEach(m, body, x, [], ctx) == [];
    var each := EvalEach(m, body, x, [v], ctx);
    assert each == [Eval(m, body, inner)];
    hide Eval, EvalEach;
    assert Ok(true) in each <==> Marked(Free(body, macros), inner);
  }

  lemma {:induction false} MarksSpreadAll(es: seq<Expr>, macros: set<string>, ctx: Context<bool>)
    requires TernaryFreeAll(es) && FreeAll(es, macros) <= ctx.Keys
    ensures var r := EvalAll(Marking(None, macros), es, ctx);
      r.Ok? && (true in r.value <==> Marked(FreeAll(es, macros), ctx))
    decreases es, 0
  {
    if es != [] {
      MarksSpreadAll(es[..|es| - 1], macros, ctx);
      MarksSpread(es[|es| - 1], macros, ctx);
    }
  }

  ghost predicate SameAsFull<V>(m: Meaning<V>, e: Expr, full: Context<V>) {
    Eval(m, e, Build(m, full, Attributes(e))) == Eval(m, e, Build(m, full, GATED))
  }

  /** Registered alone, the expression always evaluates as with everything loaded, whatever the functions mean as long as
      just the macros bind. */
  ghost predicate Enough(e: Expr, macros: set<string>) {
    forall m: Meaning<bool>, full: Context<bool> :: Respects(m, macros) ==> SameAsFull(m, e, full)
  }

  lemma OneMark(x: string, attributes: set<string>, macros: set<string>)
    requires x in GATED && x !in attributes
    ensures var m, full := Marking(None, macros), map[x := true];
      var some, all := Build(m, full, attributes), Build(m, full, GATED);
      && some.Keys == all.Keys == GATED + {MCP}
      && all[x] && forall y :: y in some ==> !some[y]
  {}

  /** A gated variable that is mentioned and not loaded makes a difference when it alone is marked. */
  lemma NotLoadedShows(e: Expr, macros: set<string>, x: string)
    requires TernaryFree(e) && Free(e, macros) <= GATED + {MCP} && x in Free(e, macros) * GATED && x !in Attributes(e)
    ensures !Enough(e, macros)
  {
    var m, full := Marking(None, macros), map[x := true];
    var some, all := Build(m, full, Attributes(e)), Build(m, full, GATED);
    assert Respects(m, macros);
    hide Eval, Free, TernaryFree, Attributes, Build;
    OneMark(x, Attributes(e), macros);
    MarksSpread(e, macros, some);
    MarksSpread(e, macros, all);
    assert !SameAsFull(m, e, full);
  }

  /** An expression that loads each gated variable it mentions free evaluates as with everything loaded, whatever the values
      and the meaning. */
  lemma FreeLoadedIsEnough<V(!new)>(m: Meaning<V>, macros: set<string>, e: Expr, full: Context<V>)
    requires Respects(m, macros) && Free(e, macros) * GATED <= Attributes(e)
    ensures SameAsFull(m, e, full)
  {
    EvalReadsFree(m, macros, e, Build(m, full, Attributes(e)), Build(m, full, GATED));
  }

  /** For an expression over the context's variables, and those its macros bind, and without ternaries, registering it is
      enough exactly if each gated variable in it is loaded. */
  lemma EnoughIffLoaded(e: Expr, macros: set<string>)
    requires TernaryFree(e) && Free(e, macros) <= GATED + {MCP}
    ensures Enough(e, macros) <==> Free(e, macros) * GATED <= Attributes(e)
  {
    if x :| x in Free(e, macros) * GATED && x !in Attributes(e) {
      NotLoadedShows(e, macros, x);
    } else {
      forall m: Meaning<bool>, full: Context<bool> | Respects(m, macros) ensures SameAsFull(m, e, full) {
        FreeLoadedIsEnough(m, macros, e, full);
      }
    }
  }

  /** If it is tidy as well: exactly if each gated variable it mentions has a use outside indices and field values from
      which `body`, `prompt` or `completion` is not selected. */
  lemma EnoughIff(e: Expr, macros: set<string>)
    requires TernaryFree(e) && Free(e, macros) <= GATED + {MCP} && Tidy(e)
    ensures Enough(e, macros) <==> forall x :: x in Free(e, macros) * GATED ==> UsedPlainly(e, x, None)
  {
    EnoughIffLoaded(e, macros);
    hide Enough;
    forall x | x in Free(e, macros) * GATED ensures x in Attributes(e) <==> UsedPlainly(e, x, None) {
      TidyLoadedIff(e, x);
    }
  }

  // So these fall short.

  lemma PairProps(x: Expr, y: Expr, path: Path)
    ensures var (all, p) := Props(x, path);
      var (more, q) := Props(y, p);
      PropsAll([x, y], path) == (all + more, q)
  {
    var one, two := [x], [x, y];
    assert two[..|two| - 1] == one && one[..|one| - 1] == [];
    assert PropsAll([], path) == ([], path);
    assert PropsAll(one, path) == ([] + Props(x, path).0, Props(x, path).1);
    assert [] + Props(x, path).0 == Props(x, path).0;
  }

  lemma PairFree(x: Expr, y: Expr, macros: set<string>)
    ensures TernaryFreeAll([x, y]) <==> TernaryFree(x) && TernaryFree(y)
    ensures FreeAll([x, y], macros) == Free(x, macros) + Free(y, macros)
  {
    var one, two := [x], [x, y];
    assert two[..|two| - 1] == one && one[..|one| - 1] == [];
    assert TernaryFreeAll([]) && FreeAll([], macros) == {};
    assert TernaryFreeAll(one) == TernaryFree(x) && FreeAll(one, macros) == Free(x, macros);
  }

  /** A map with one entry. */
  function Entry(key: int, value: int): Expr {
    Map([Atom(key), Atom(value)])
  }

  lemma EntryIs(key: int, value: int, path: Path, macros: set<string>)
    ensures Props(Entry(key, value), path) == ([], path)
    ensures TernaryFree(Entry(key, value)) && Free(Entry(key, value), macros) == {}
  {
    PairProps(Atom(key), Atom(value), path);
    PairFree(Atom(key), Atom(value), macros);
  }

  /** An index is not visited: `{"GET": 1}[request.method]`. */
  lemma IndexFallsShort(key: int, value: int, macros: set<string>)
    ensures !Enough(Select(Entry(key, value), Index(Select(Ident(REQUEST), Attribute("method")))), macros)
  {
    var e := Select(Entry(key, value), Index(Select(Ident(REQUEST), Attribute("method"))));
    EntryIs(key, value, [], macros);
    assert Props(e, []) == Props(Entry(key, value), []);
    NotLoadedShows(e, macros, REQUEST);
  }

  /** `request.body` is recorded, but `request` is not, and it is `request` that loading looks for. */
  lemma BodyFallsShort(macros: set<string>)
    ensures !Enough(Select(Ident(REQUEST), Attribute("body")), macros)
  {
    var e := Select(Ident(REQUEST), Attribute("body"));
    assert ["body"] + [] == ["body"] && [REQUEST] + ["body"] == [REQUEST, "body"];
    assert Props(Ident(REQUEST), ["body"]).0 == [[REQUEST, "body"]] == Props(e, []).0;
    NotLoadedShows(e, macros, REQUEST);
  }

  /** An attribute of a literal stays on the path: `[{"body": 1}.body, request]` is taken for a use of `request.body`
      alone. */
  lemma LeftoverPathFallsShort(key: int, value: int, macros: set<string>)
    ensures !Enough(List([Select(Entry(key, value), Attribute("body")), Ident(REQUEST)]), macros)
  {
    var first, second := Select(Entry(key, value), Attribute("body")), Ident(REQUEST);
    var e := List([first, second]);
    assert ["body"] + [] == ["body"] && [REQUEST] + ["body"] == [REQUEST, "body"];
    EntryIs(key, value, ["body"], macros);
    assert Props(first, []) == ([], ["body"]) && Props(second, ["body"]) == ([[REQUEST, "body"]], []);
    PairProps(first, second, []);
    PairFree(first, second, macros);
    assert Props(e, []).0 == [[REQUEST, "body"]];
    NotLoadedShows(e, macros, REQUEST);
  }

  /** A ternary's middle is not visited: `1 ? request : 0`, whatever the literals. */
  lemma TernaryMiddleFallsShort(c: int, last: int, macros: set<string>)
    ensures !Enough(Ternary(Atom(c), Ident(REQUEST), Atom(last)), macros)
  {
    var e, m, full := Ternary(Atom(c), Ident(REQUEST), Atom(last)), Marking(Some(true), macros), map[REQUEST := true];
    assert Props(Atom(c), []) == ([], []) == Props(Atom(last), []);
    assert Props(e, []).0 == [] && Attributes(e) == {};
    assert Eval(m, Atom(c), Build(m, full, {})) == Ok(false) == Eval(m, Atom(c), Build(m, full, GATED));
    assert Eval(m, Ident(REQUEST), Build(m, full, GATED)) == Ok(true);
    assert Eval(m, Ident(REQUEST), Build(m, full, {})) == Ok(false);
    assert !SameAsFull(m, e, full);
  }
}
