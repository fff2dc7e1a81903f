/** Which context attributes a CEL expression is taken to need, and whether evaluating it with only those loaded gives
    the same result. */
module CelProperties {
  import opened Prelude

  datatype Op = Arithmetic(sign: char) | Relation(symbol: string) | Or | And

  datatype Member =
    | Attribute(name: string)
    | Index(index: Expr)
    | Fields(names: seq<string>, values: seq<Expr>)

  /** A parsed expression. A map literal lists its keys and values in turn. */
  datatype Expr =
    | Binary(op: Op, left: Expr, right: Expr)
    | Ternary(cond: Expr, middle: Expr, last: Expr)
    | Unary(operand: Expr)
    | Select(base: Expr, member: Member)
    | Call(fn: string, target: Option<Expr>, args: seq<Expr>)
    | List(items: seq<Expr>)
    | Map(items: seq<Expr>)
    | Atom(literal: int)
    | Ident(name: string)

  type Path = seq<string>

  // The walk, as a function of the expression and the path so far: the paths it collects and the path it leaves.

  function Props(e: Expr, path: Path): (seq<Path>, Path)
    decreases e, 1
  {
    match e
    case Binary(_, l, r) =>
      var (all, p) := Props(l, path);
      var (more, q) := Props(r, p);
      (all + more, q)
    case Ternary(c, _, b) =>
      var (all, p) := Props(c, path);
      var (more, q) := Props(b, p);
      (all + more, q)
    case Unary(o) => Props(o, path)
    case Select(b, m) => Props(b, if m.Attribute? then [m.name] + path else path)
    case Call(_, target, args) =>
      var (all, p) := if target.Some? then Props(target.value, []) else ([], []);
      var (more, q) := PropsAll(args, p);
      (all + more, q)
    case List(items) => PropsAll(items, path)
    case Map(items) => PropsAll(items, path)
    case Atom(_) => ([], path)
    case Ident(x) => ([[x] + path], [])
  }

  function PropsAll(es: seq<Expr>, path: Path): (seq<Path>, Path)
    decreases es, 0
  {
    if es == [] then ([], path) else
      var (all, p) := PropsAll(es[..|es| - 1], path);
      var (more, q) := Props(es[|es| - 1], p);
      (all + more, q)
  }

  /** The walk as the code does it, on a shared list and a shared path. */
  class Walk {
    var all: seq<Path>
    var path: Path

    constructor ()
      ensures all == [] && path == []
    {
      all, path := [], [];
    }

    method Properties(e: Expr)
      modifies this
      ensures all == old(all) + Props(e, old(path)).0 && path == Props(e, old(path)).1
      decreases e, 1
    {
      match e
      case Binary(_, l, r) =>
        Properties(l);
        Properties(r);
      case Ternary(c, _, b) =>
        Properties(c);
        Properties(b);
      case Unary(o) =>
        Properties(o);
      case Select(b, m) =>
        if m.Attribute? {
          path := [m.name] + path;
        }
        Properties(b);
      case Call(_, target, args) =>
        path := [];
        if target.Some? {
          Properties(target.value);
        }
        PropertiesEach(args);
      case List(items) =>
        PropertiesEach(items);
      case Map(items) =>
        PropertiesEach(items);
      case Atom(_) =>
      case Ident(x) =>
        path := [x] + path;
        all := all + [path];
        path := [];
    }

    method PropertiesEach(es: seq<Expr>)
      modifies this
      ensures all == old(all) + PropsAll(es, old(path)).0 && path == PropsAll(es, old(path)).1
      decreases es, 0
    {
      for i := 0 to |es|
        invariant all == old(all) + PropsAll(es[..i], old(path)).0 && path == PropsAll(es[..i], old(path)).1
      {
        Properties(es[i]);
        assert es[..i + 1][..i] == es[..i];
      }
      assert es[..|es|] == es;
    }
  }

  // Identifiers.

  /** Those that evaluation may read. */
  function Idents(e: Expr): set<string>
    decreases e, 1
  {
    match e
    case Binary(_, l, r) => Idents(l) + Idents(r)
    case Ternary(c, a, b) => Idents(c) + Idents(a) + Idents(b)
    case Unary(o) => Idents(o)
    case Select(b, Attribute(_)) => Idents(b)
    case Select(b, Index(i)) => Idents(b) + Idents(i)
    case Select(b, Fields(_, vs)) => Idents(b) + IdentsAll(vs)
    case Call(_, target, args) => (if target.Some? then Idents(target.value) else {}) + IdentsAll(args)
    case List(items) => IdentsAll(items)
    case Map(items) => IdentsAll(items)
    case Atom(_) => {}
    case Ident(x) => {x}
  }

  function IdentsAll(es: seq<Expr>): set<string>
    decreases es, 0
  {
    if es == [] then {} else IdentsAll(es[..|es| - 1]) + Idents(es[|es| - 1])
  }

  /** Those in positions the walk visits: not in the middle of a ternary, an index or a field value. */
  function Visible(e: Expr): set<string>
    decreases e, 1
  {
    match e
    case Binary(_, l, r) => Visible(l) + Visible(r)
    case Ternary(c, _, b) => Visible(c) + Visible(b)
    case Unary(o) => Visible(o)
    case Select(b, _) => Visible(b)
    case Call(_, target, args) => (if target.Some? then Visible(target.value) else {}) + VisibleAll(args)
    case List(items) => VisibleAll(items)
    case Map(items) => VisibleAll(items)
    case Atom(_) => {}
    case Ident(x) => {x}
  }

  function VisibleAll(es: seq<Expr>): set<string>
    decreases es, 0
  {
    if es == [] then {} else VisibleAll(es[..|es| - 1]) + Visible(es[|es| - 1])
  }

  /** No identifier in a position the walk skips. */
  predicate NothingHidden(e: Expr)
    decreases e, 1
  {
    match e
    case Binary(_, l, r) => NothingHidden(l) && NothingHidden(r)
    case Ternary(c, a, b) => NothingHidden(c) && Idents(a) == {} && NothingHidden(b)
    case Unary(o) => NothingHidden(o)
    case Select(b, Attribute(_)) => NothingHidden(b)
    case Select(b, Index(i)) => NothingHidden(b) && Idents(i) == {}
    case Select(b, Fields(_, vs)) => NothingHidden(b) && IdentsAll(vs) == {}
    case Call(_, target, args) => (target.Some? ==> NothingHidden(target.value)) && NothingHiddenAll(args)
    case List(items) => NothingHiddenAll(items)
    case Map(items) => NothingHiddenAll(items)
    case Atom(_) => true
    case Ident(_) => true
  }

  predicate NothingHiddenAll(es: seq<Expr>)
    decreases es, 0
  {
    es == [] || (NothingHiddenAll(es[..|es| - 1]) && NothingHidden(es[|es| - 1]))
  }

  function Firsts(paths: seq<Path>): set<string> {
    set p | p in paths && p != [] :: p[0]
  }

  lemma FirstsAppend(a: seq<Path>, b: seq<Path>)
    ensures Firsts(a + b) == Firsts(a) + Firsts(b)
  {}

  /** Whatever path is left over from before, the first tokens the walk collects are exactly the visible identifiers. */
  lemma {:induction false} FirstsAreVisible(e: Expr, path: Path)
    ensures Firsts(Props(e, path).0) == Visible(e)
    decreases e, 1
  {
    match e
    case Binary(_, l, r) =>
      FirstsAreVisible(l, path);
      FirstsAreVisible(r, Props(l, path).1);
      FirstsAppend(Props(l, path).0, Props(r, Props(l, path).1).0);
    case Ternary(c, _, b) =>
      FirstsAreVisible(c, path);
      FirstsAreVisible(b, Props(c, path).1);
      FirstsAppend(Props(c, path).0, Props(b, Props(c, path).1).0);
    case Unary(o) => FirstsAreVisible(o, path);
    case Select(b, m) => FirstsAreVisible(b, if m.Attribute? then [m.name] + path else path);
    case Call(_, target, args) =>
      if target.Some? { FirstsAreVisible(target.value, []); }
      var (all, p) := if target.Some? then Props(target.value, []) else ([], []);
      FirstsAreVisibleAll(args, p);
      FirstsAppend(all, PropsAll(args, p).0);
    case List(items) => FirstsAreVisibleAll(items, path);
    case Map(items) => FirstsAreVisibleAll(items, path);
    case Atom(_) =>
    case Ident(x) =>
      assert [x] + path in Props(e, path).0;
  }

  lemma {:induction false} FirstsAreVisibleAll(es: seq<Expr>, path: Path)
    ensures Firsts(PropsAll(es, path).0) == VisibleAll(es)
    decreases es, 0
  {
    if es != [] {
      var (all, p) := PropsAll(es[..|es| - 1], path);
      FirstsAreVisibleAll(es[..|es| - 1], path);
      FirstsAreVisible(es[|es| - 1], p);
      FirstsAppend(all, Props(es[|es| - 1], p).0);
    }
  }

  lemma {:induction false} NothingHiddenIsVisible(e: Expr)
    requires NothingHidden(e)
    ensures Visible(e) == Idents(e)
    decreases e, 1
  {
    match e
    case Binary(_, l, r) =>
      NothingHiddenIsVisible(l);
      NothingHiddenIsVisible(r);
    case Ternary(c, _, b) =>
      NothingHiddenIsVisible(c);
      NothingHiddenIsVisible(b);
    case Unary(o) => NothingHiddenIsVisible(o);
    case Select(b, _) => NothingHiddenIsVisible(b);
    case Call(_, target, args) =>
      if target.Some? { NothingHiddenIsVisible(target.value); }
      NothingHiddenIsVisibleAll(args);
    case List(items) => NothingHiddenIsVisibleAll(items);
    case Map(items) => NothingHiddenIsVisibleAll(items);
    case Atom(_) =>
    case Ident(_) =>
  }

  lemma {:induction false} NothingHiddenIsVisibleAll(es: seq<Expr>)
    requires NothingHiddenAll(es)
    ensures VisibleAll(es) == IdentsAll(es)
    decreases es, 0
  {
    if es != [] {
      NothingHiddenIsVisibleAll(es[..|es| - 1]);
      NothingHiddenIsVisible(es[|es| - 1]);
    }
  }

  /** If nothing is hidden the first tokens collected are exactly the expression's identifiers. */
  lemma FirstsAreIdents(e: Expr, path: Path)
    requires NothingHidden(e)
    ensures Firsts(Props(e, path).0) == Idents(e)
  {
    FirstsAreVisible(e, path);
    NothingHiddenIsVisible(e);
  }

  // The walk as a reading of the expression from left to right.

  /** What the walk comes across: an attribute, the start of a call, or an identifier. */
  datatype Mark = Selects(name: string) | Calls | Uses(name: string)

  /** In the order it does: attributes before what they are selected from, operands and arguments in turn. */
  function Marks(e: Expr): seq<Mark>
    decreases e, 1
  {
    match e
    case Binary(_, l, r) => Marks(l) + Marks(r)
    case Ternary(c, _, b) => Marks(c) + Marks(b)
    case Unary(o) => Marks(o)
    case Select(b, m) => (if m.Attribute? then [Selects(m.name)] else []) + Marks(b)
    case Call(_, target, args) => [Calls] + (if target.Some? then Marks(target.value) else []) + MarksAll(args)
    case List(items) => MarksAll(items)
    case Map(items) => MarksAll(items)
    case Atom(_) => []
    case Ident(x) => [Uses(x)]
  }

  function MarksAll(es: seq<Expr>): seq<Mark>
    decreases es, 0
  {
    if es == [] then [] else MarksAll(es[..|es| - 1]) + Marks(es[|es| - 1])
  }

  /** Each identifier is collected with the attributes read since the last identifier or call, the latest first; the path
      left over is those read since. */
  function Read(marks: seq<Mark>, path: Path): (seq<Path>, Path) {
    if marks == [] then ([], path) else
      var (all, p) := Read(marks[..|marks| - 1], path);
      match marks[|marks| - 1]
      case Selects(a) => (all, [a] + p)
      case Calls => (all, [])
      case Uses(x) => (all + [[x] + p], [])
  }

  lemma {:induction false} ReadOn(a: seq<Mark>, b: seq<Mark>, path: Path)
    ensures Read(a + b, path) == (Read(a, path).0 + Read(b, Read(a, path).1).0, Read(b, Read(a, path).1).1)
  {
    if b == [] {
      assert a + b == a && Read(a, path).0 + [] == Read(a, path).0;
    } else {
      var front, last := b[..|b| - 1], b[|b| - 1];
      assert (a + b)[..|a + b| - 1] == a + front && (a + b)[|a + b| - 1] == last;
      ReadOn(a, front, path);
      var all := Read(a, path).0;
      var (more, q) := Read(front, Read(a, path).1);
      if last.Uses? { assert (all + more) + [[last.name] + q] == all + (more + [[last.name] + q]); }
    }
  }

  lemma ReadOne(m: Mark, path: Path)
    ensures Read([m], path) ==
      if m.Selects? then ([], [m.name] + path) else if m.Calls? then ([], []) else ([[m.name] + path], [])
  {
    assert [m][..0] == [] && Read([], path) == ([], path);
    if m.Uses? { assert [] + [[m.name] + path] == [[m.name] + path]; }
  }

  /** For every expression and whatever path is left over from before, the walk collects what such a reading does. */
  lemma {:induction false} PropsAreRead(e: Expr, path: Path)
    ensures Props(e, path) == Read(Marks(e), path)
    decreases e, 1
  {
    match e
    case Binary(_, l, r) =>
      PropsAreRead(l, path);
      PropsAreRead(r, Props(l, path).1);
      ReadOn(Marks(l), Marks(r), path);
    case Ternary(c, _, b) =>
      PropsAreRead(c, path);
      PropsAreRead(b, Props(c, path).1);
      ReadOn(Marks(c), Marks(b), path);
    case Unary(o) => PropsAreRead(o, path);
    case Select(b, m) =>
      PropsAreRead(b, if m.Attribute? then [m.name] + path else path);
      if m.Attribute? {
        ReadOne(Selects(m.name), path);
        ReadOn([Selects(m.name)], Marks(b), path);
        assert [] + Read(Marks(b), [m.name] + path).0 == Read(Marks(b), [m.name] + path).0;
      } else {
        assert [] + Marks(b) == Marks(b);
      }
    case Call(_, _, _) => CallIsRead(e, path);
    case List(items) => PropsAllAreRead(items, path);
    case Map(items) => PropsAllAreRead(items, path);
    case Atom(_) =>
    case Ident(x) => ReadOne(Uses(x), path);
  }

  lemma {:induction false} CallIsRead(e: Expr, path: Path)
    requires e.Call?
    ensures Props(e, path) == Read(Marks(e), path)
    decreases e, 0
  {
    var first := if e.target.Some? then Marks(e.target.value) else [];
    if e.target.Some? { PropsAreRead(e.target.value, []); }
    PropsAllAreRead(e.args, Read(first, []).1);
    ReadOne(Calls, path);
    ReadOn([Calls], first, path);
    assert [] + Read(first, []).0 == Read(first, []).0;
    ReadOn([Calls] + first, MarksAll(e.args), path);
  }

  lemma {:induction false} PropsAllAreRead(es: seq<Expr>, path: Path)
    ensures PropsAll(es, path) == Read(MarksAll(es), path)
    decreases es, 0
  {
    if es != [] {
      var front, last := es[..|es| - 1], es[|es| - 1];
      PropsAllAreRead(front, path);
      PropsAreRead(last, PropsAll(front, path).1);
      ReadOn(MarksAll(front), Marks(last), path);
    }
  }

  // Attribute chains.

  /** An identifier or a call, with anything selected from it. */
  predicate Rooted(e: Expr) {
    e.Ident? || e.Call? || (e.Select? && Rooted(e.base))
  }

  /** Wherever the walk goes, attributes are selected from identifiers and calls only. */
  predicate Tidy(e: Expr)
    decreases e, 1
  {
    match e
    case Binary(_, l, r) => Tidy(l) && Tidy(r)
    case Ternary(c, _, b) => Tidy(c) && Tidy(b)
    case Unary(o) => Tidy(o)
    case Select(b, m) => Tidy(b) && (m.Attribute? ==> Rooted(b))
    case Call(_, target, args) => (target.Some? ==> Tidy(target.value)) && TidyAll(args)
    case List(items) => TidyAll(items)
    case Map(items) => TidyAll(items)
    case Atom(_) => true
    case Ident(_) => true
  }

  predicate TidyAll(es: seq<Expr>)
    decreases es, 0
  {
    es == [] || (TidyAll(es[..|es| - 1]) && Tidy(es[|es| - 1]))
  }

  /** Each visible use of an identifier, followed by the attributes selected from it, innermost first; `selected` are
      those selected from the whole expression. */
  function Chains(e: Expr, selected: Path): seq<Path>
    decreases e, 1
  {
    match e
    case Binary(_, l, r) => Chains(l, []) + Chains(r, [])
    case Ternary(c, _, b) => Chains(c, []) + Chains(b, [])
    case Unary(o) => Chains(o, [])
    case Select(b, m) => Chains(b, if m.Attribute? then [m.name] + selected else selected)
    case Call(_, target, args) => (if target.Some? then Chains(target.value, []) else []) + ChainsAll(args)
    case List(items) => ChainsAll(items)
    case Map(items) => ChainsAll(items)
    case Atom(_) => []
    case Ident(x) => [[x] + selected]
  }

  function ChainsAll(es: seq<Expr>): seq<Path>
    decreases es, 0
  {
    if es == [] then [] else ChainsAll(es[..|es| - 1]) + Chains(es[|es| - 1], [])
  }

  /** For a tidy expression the walk collects exactly the attribute chains, in order, and leaves no path behind. */
  lemma {:induction false} PropsAreChains(e: Expr, path: Path)
    requires Tidy(e) && (path == [] || Rooted(e))
    ensures Props(e, path) == (Chains(e, path), [])
    decreases e, 1
  {
    match e
    case Binary(_, l, r) =>
      PropsAreChains(l, []);
      PropsAreChains(r, []);
    case Ternary(c, _, b) =>
      PropsAreChains(c, []);
      PropsAreChains(b, []);
    case Unary(o) => PropsAreChains(o, []);
    case Select(b, m) => PropsAreChains(b, if m.Attribute? then [m.name] + path else path);
    case Call(_, target, args) =>
      if target.Some? { PropsAreChains(target.value, []); }
      PropsAllAreChains(args);
    case List(items) => PropsAllAreChains(items);
    case Map(items) => PropsAllAreChains(items);
    case Atom(_) =>
    case Ident(_) =>
  }

  lemma {:induction false} PropsAllAreChains(es: seq<Expr>)
    requires TidyAll(es)
    ensures PropsAll(es, []) == (ChainsAll(es), [])
    decreases es, 0
  {
    if es != [] {
      PropsAllAreChains(es[..|es| - 1]);
      PropsAreChains(es[|es| - 1], []);
    }
  }

  // Evaluation, for any meaning of the operators and functions.

  datatype Result<T> = Ok(value: T) | Err

  /** The meaning of everything but control flow and variables. `elements` gives the values a binding macro (such as
      `with`, `map` or `all`) binds its variable to, in turn; none if the function is not such a macro. */
  datatype Meaning<!V> = Meaning(
    absent: V,
    literal: int -> V,
    truth: V -> Option<bool>,
    binary: (Op, V, V) -> Result<V>,
    unary: V -> Result<V>,
    attribute: (V, string) -> Result<V>,
    index: (V, V) -> Result<V>,
    fields: (V, seq<string>, seq<V>) -> Result<V>,
    elements: (string, V) -> Option<seq<V>>,
    combine: (string, V, seq<Result<V>>) -> Result<V>,
    call: (string, Option<V>, seq<V>) -> Result<V>,
    list: seq<V> -> V,
    dict: seq<V> -> Result<V>)

  type Context<!V> = map<string, V>

  ghost function Eval<V>(m: Meaning<V>, e: Expr, ctx: Context<V>): Result<V>
    decreases e, 2
  {
    match e
    case Atom(n) => Ok(m.literal(n))
    case Ident(x) => if x in ctx then Ok(ctx[x]) else Err
    case Binary(op, l, r) =>
      (match Eval(m, l, ctx)
       case Err => Err
       case Ok(a) =>
         if (op.And? && m.truth(a) == Some(false)) || (op.Or? && m.truth(a) == Some(true)) then Ok(a)
         else match Eval(m, r, ctx) case Err => Err case Ok(b) => m.binary(op, a, b))
    case Ternary(c, a, b) =>
      (match Eval(m, c, ctx)
       case Err => Err
       case Ok(v) => match m.truth(v) case None => Err case Some(t) => if t then Eval(m, a, ctx) else Eval(m, b, ctx))
    case Unary(o) => (match Eval(m, o, ctx) case Err => Err case Ok(v) => m.unary(v))
    case Select(b, member) =>
      (match Eval(m, b, ctx)
       case Err => Err
       case Ok(v) =>
         match member
         case Attribute(name) => m.attribute(v, name)
         case Index(i) => (match Eval(m, i, ctx) case Err => Err case Ok(w) => m.index(v, w))
         case Fields(names, values) => (match EvalAll(m, values, ctx) case Err => Err case Ok(ws) => m.fields(v, names, ws)))
    case Call(fn, target, args) =>
      (match EvalTarget(m, target, ctx)
       case Err => Err
       case Ok(tv) =>
         if tv.Some? && |args| == 2 && args[0].Ident? && m.elements(fn, tv.value).Some?
         then m.combine(fn, tv.value, EvalEach(m, args[1], args[0].name, m.elements(fn, tv.value).value, ctx))
         else match EvalAll(m, args, ctx) case Err => Err case Ok(vs) => m.call(fn, tv, vs))
    case List(items) => (match EvalAll(m, items, ctx) case Err => Err case Ok(vs) => Ok(m.list(vs)))
    case Map(items) => (match EvalAll(m, items, ctx) case Err => Err case Ok(vs) => m.dict(vs))
  }

  ghost function EvalTarget<V>(m: Meaning<V>, target: Option<Expr>, ctx: Context<V>): Result<Option<V>>
    decreases target, 2
  {
    if target.None? then Ok(None) else match Eval(m, target.value, ctx) case Err => Err case Ok(v) => Ok(Some(v))
  }

  ghost function EvalAll<V>(m: Meaning<V>, es: seq<Expr>, ctx: Context<V>): Result<seq<V>>
    decreases es, 0
  {
    if es == [] then Ok([]) else
      match EvalAll(m, es[..|es| - 1], ctx)
      case Err => Err
      case Ok(vs) => match Eval(m, es[|es| - 1], ctx) case Err => Err case Ok(v) => Ok(vs + [v])
  }

  /** The body once for each value of the bound variable. */
  ghost function EvalEach<V>(m: Meaning<V>, body: Expr, x: string, vs: seq<V>, ctx: Context<V>): seq<Result<V>>
    decreases body, 3, |vs|
  {
    if vs == [] then [] else EvalEach(m, body, x, vs[..|vs| - 1], ctx) + [Eval(m, body, ctx[x := vs[|vs| - 1]])]
  }

  /** A conjunction whose left side is false, and a disjunction whose left side is true, is that side whatever the right
      side is; otherwise both sides count. A ternary is the side its condition picks. */
  lemma EvalPicks<V>(m: Meaning<V>, op: Op, l: Expr, r: Expr, other: Expr, a: V, ctx: Context<V>)
    requires Eval(m, l, ctx) == Ok(a)
    ensures (op == And && m.truth(a) == Some(false)) || (op == Or && m.truth(a) == Some(true)) ==>
      Eval(m, Binary(op, l, r), ctx) == Ok(a)
    ensures !(op == And && m.truth(a) == Some(false)) && !(op == Or && m.truth(a) == Some(true)) ==>
      Eval(m, Binary(op, l, r), ctx) == if Eval(m, r, ctx).Ok? then m.binary(op, a, Eval(m, r, ctx).value) else Err
    ensures m.truth(a).Some? ==>
      Eval(m, Ternary(l, r, other), ctx) == if m.truth(a).value then Eval(m, r, ctx) else Eval(m, other, ctx)
  {}

  ghost predicate AgreeOn<V>(xs: set<string>, a: Context<V>, b: Context<V>) {
    forall x :: x in xs ==> (x in a <==> x in b) && (x in a ==> a[x] == b[x])
  }

  /** Evaluation reads no variable but the expression's identifiers. */
  lemma {:induction false} EvalReadsIdents<V>(m: Meaning<V>, e: Expr, a: Context<V>, b: Context<V>)
    requires AgreeOn(Idents(e), a, b)
    ensures Eval(m, e, a) == Eval(m, e, b)
    decreases e, 2
  {
    match e
    case Binary(_, l, r) =>
      EvalReadsIdents(m, l, a, b);
      EvalReadsIdents(m, r, a, b);
    case Ternary(c, x, y) =>
      EvalReadsIdents(m, c, a, b);
      EvalReadsIdents(m, x, a, b);
      EvalReadsIdents(m, y, a, b);
    case Unary(o) => EvalReadsIdents(m, o, a, b);
    case Select(base, member) =>
      EvalReadsIdents(m, base, a, b);
      if member.Index? {
        EvalReadsIdents(m, member.index, a, b);
      } else if member.Fields? {
        EvalAllReadsIdents(m, member.values, a, b);
      }
    case Call(_, _, _) => CallReadsIdents(m, e, a, b);
    case List(items) => EvalAllReadsIdents(m, items, a, b);
    case Map(items) => EvalAllReadsIdents(m, items, a, b);
    case Atom(_) =>
    case Ident(_) =>
  }

  lemma {:induction false} CallReadsIdents<V>(m: Meaning<V>, e: Expr, a: Context<V>, b: Context<V>)
    requires e.Call? && AgreeOn(Idents(e), a, b)
    ensures Eval(m, e, a) == Eval(m, e, b)
    decreases e, 1
  {
    var fn, target, args := e.fn, e.target, e.args;
    if target.Some? { EvalReadsIdents(m, target.value, a, b); }
    EvalAllReadsIdents(m, args, a, b);
    if |args| == 2 && args[0].Ident? {
      assert args[..1][..0] == [] && args[..1] == [args[0]];
      assert Idents(args[1]) <= IdentsAll(args);
      var tv := EvalTarget(m, target, a);
      if tv.Ok? && tv.value.Some? && m.elements(fn, tv.value.value).Some? {
        EvalEachReadsIdents(m, args[1], args[0].name, m.elements(fn, tv.value.value).value, a, b);
      }
    }
  }

  lemma {:induction false} EvalAllReadsIdents<V>(m: Meaning<V>, es: seq<Expr>, a: Context<V>, b: Context<V>)
    requires AgreeOn(IdentsAll(es), a, b)
    ensures EvalAll(m, es, a) == EvalAll(m, es, b)
    decreases es, 0
  {
    if es != [] {
      EvalAllReadsIdents(m, es[..|es| - 1], a, b);
      EvalReadsIdents(m, es[|es| - 1], a, b);
    }
  }

  lemma {:induction false} EvalEachReadsIdents<V>(
    m: Meaning<V>, body: Expr, x: string, vs: seq<V>, a: Context<V>, b: Context<V>)
    requires AgreeOn(Idents(body), a, b)
    ensures EvalEach(m, body, x, vs, a) == EvalEach(m, body, x, vs, b)
    decreases body, 3, |vs|
  {
    if vs != [] {
      EvalEachReadsIdents(m, body, x, vs[..|vs| - 1], a, b);
      EvalReadsIdents(m, body, a[x := vs[|vs| - 1]], b[x := vs[|vs| - 1]]);
    }
  }

  // Binding macros.

  /** A call on a target of a function that binds a variable and evaluates its second argument with it. */
  predicate Binds(macros: set<string>, e: Expr) {
    e.Call? && e.fn in macros && e.target.Some? && |e.args| == 2 && e.args[0].Ident?
  }

  /** The identifiers that stand for variables of the context, given the functions that bind one of their own. */
  function Free(e: Expr, macros: set<string>): set<string>
    decreases e, 1
  {
    match e
    case Binary(_, l, r) => Free(l, macros) + Free(r, macros)
    case Ternary(c, a, b) => Free(c, macros) + Free(a, macros) + Free(b, macros)
    case Unary(o) => Free(o, macros)
    case Select(b, Attribute(_)) => Free(b, macros)
    case Select(b, Index(i)) => Free(b, macros) + Free(i, macros)
    case Select(b, Fields(_, vs)) => Free(b, macros) + FreeAll(vs, macros)
    case Call(_, target, args) =>
      if Binds(macros, e) then Free(target.value, macros) + (Free(args[1], macros) - {args[0].name})
      else (if target.Some? then Free(target.value, macros) else {}) + FreeAll(args, macros)
    case List(items) => FreeAll(items, macros)
    case Map(items) => FreeAll(items, macros)
    case Atom(_) => {}
    case Ident(x) => {x}
  }

  function FreeAll(es: seq<Expr>, macros: set<string>): set<string>
    decreases es, 0
  {
    if es == [] then {} else FreeAll(es[..|es| - 1], macros) + Free(es[|es| - 1], macros)
  }

  ghost predicate Respects<V(!new)>(m: Meaning<V>, macros: set<string>) {
    forall fn, v :: m.elements(fn, v).Some? <==> fn in macros
  }

  /** Under a meaning in which just those functions bind, evaluation reads no other variable of the context. */
  lemma {:induction false} EvalReadsFree<V(!new)>(m: Meaning<V>, macros: set<string>, e: Expr, a: Context<V>, b: Context<V>)
    requires Respects(m, macros) && AgreeOn(Free(e, macros), a, b)
    ensures Eval(m, e, a) == Eval(m, e, b)
    decreases e, 2
  {
    match e
    case Binary(_, l, r) =>
      EvalReadsFree(m, macros, l, a, b);
      EvalReadsFree(m, macros, r, a, b);
    case Ternary(c, x, y) =>
      EvalReadsFree(m, macros, c, a, b);
      EvalReadsFree(m, macros, x, a, b);
      EvalReadsFree(m, macros, y, a, b);
    case Unary(o) => EvalReadsFree(m, macros, o, a, b);
    case Select(base, member) =>
      EvalReadsFree(m, macros, base, a, b);
      if member.Index? {
        EvalReadsFree(m, macros, member.index, a, b);
      } else if member.Fields? {
        EvalAllReadsFree(m, macros, member.values, a, b);
      }
    case Call(_, _, _) => CallReadsFree(m, macros, e, a, b);
    case List(items) => EvalAllReadsFree(m, macros, items, a, b);
    case Map(items) => EvalAllReadsFree(m, macros, items, a, b);
    case Atom(_) =>
    case Ident(_) =>
  }

  lemma {:induction false} CallReadsFree<V(!new)>(m: Meaning<V>, macros: set<string>, e: Expr, a: Context<V>, b: Context<V>)
    requires e.Call? && Respects(m, macros) && AgreeOn(Free(e, macros), a, b)
    ensures Eval(m, e, a) == Eval(m, e, b)
    decreases e, 1
  {
    var target, args := e.target, e.args;
    if target.Some? { EvalReadsFree(m, macros, target.value, a, b); }
    if Binds(macros, e) {
      var tv := EvalTarget(m, target, a);
      if tv.Ok? {
        EvalEachReadsFree(m, macros, args[1], args[0].name, m.elements(e.fn, tv.value.value).value, a, b);
      }
    } else {
      EvalAllReadsFree(m, macros, args, a, b);
    }
  }

  lemma {:induction false} EvalAllReadsFree<V(!new)>(
    m: Meaning<V>, macros: set<string>, es: seq<Expr>, a: Context<V>, b: Context<V>)
    requires Respects(m, macros) && AgreeOn(FreeAll(es, macros), a, b)
    ensures EvalAll(m, es, a) == EvalAll(m, es, b)
    decreases es, 0
  {
    if es != [] {
      EvalAllReadsFree(m, macros, es[..|es| - 1], a, b);
      EvalReadsFree(m, macros, es[|es| - 1], a, b);
    }
  }

  lemma {:induction false} EvalEachReadsFree<V(!new)>(
    m: Meaning<V>, macros: set<string>, body: Expr, x: string, vs: seq<V>, a: Context<V>, b: Context<V>)
    requires Respects(m, macros) && AgreeOn(Free(body, macros) - {x}, a, b)
    ensures EvalEach(m, body, x, vs, a) == EvalEach(m, body, x, vs, b)
    decreases body, 3, |vs|
  {
    if vs != [] {
      EvalEachReadsFree(m, macros, body, x, vs[..|vs| - 1], a, b);
      EvalReadsFree(m, macros, body, a[x := vs[|vs| - 1]], b[x := vs[|vs| - 1]]);
    }
  }
}
