/** Attribute paths printed with escaped dots and parsed back. */
module CelPath {

  type Token = string

  function EscapeChar(c: char): string {
    if c == '.' then ['\\', '.'] else [c]
  }

  /** Every dot in a token is preceded by a backslash; backslashes are left alone. */
  function Escape(t: Token): string {
    if t == [] then [] else EscapeChar(t[0]) + Escape(t[1..])
  }

  function Print(tokens: seq<Token>): string
    decreases tokens, 0
  {
    if tokens == [] then [] else Escape(tokens[0]) + Tail(tokens[1..])
  }

  /** What follows the first token. */
  function Tail(tokens: seq<Token>): string
    decreases tokens, 1
  {
    if tokens == [] then [] else ['.'] + Print(tokens)
  }

  lemma Assoc(a: string, b: string, c: string)
    ensures (a + b) + c == a + (b + c)
  {}

  lemma {:induction false} EscapeAppend(a: Token, b: Token)
    ensures Escape(a + b) == Escape(a) + Escape(b)
  {
    if a == [] {
      assert a + b == b;
    } else {
      EscapeAppend(a[1..], b);
      assert (a + b)[1..] == a[1..] + b;
      Assoc(EscapeChar(a[0]), Escape(a[1..]), Escape(b));
    }
  }

  /** What is printed: a token without dots as it is, a dot in a token after a backslash, and a dot between tokens. */
  lemma {:induction false} PrintIs(t: Token, u: Token, tokens: seq<Token>)
    ensures '.' !in t ==> Escape(t) == t
    ensures Escape(t + ['.'] + u) == Escape(t) + ['\\', '.'] + Escape(u)
    ensures Print([t]) == Escape(t) && (tokens != [] ==> Print([t] + tokens) == Escape(t) + ['.'] + Print(tokens))
    decreases t
  {
    EscapeAppend(t, ['.'] + u);
    assert t + (['.'] + u) == t + ['.'] + u && (['.'] + u)[1..] == u;
    assert ([t] + tokens)[1..] == tokens && [t][1..] == [];
    if t != [] && '.' !in t {
      PrintIs(t[1..], u, tokens);
    }
  }

  /** Parsing `s` with `done` tokens complete and `token` under way. */
  function ParseFrom(done: seq<Token>, token: Token, s: string): seq<Token>
    decreases |s|
  {
    if s == [] then done + [token]
    else if s[0] == '.' then ParseFrom(done + [token], [], s[1..])
    else if s[0] == '\\' then
      if |s| >= 2 then ParseFrom(done, token + [s[1]], s[2..]) else done + [token]
    else ParseFrom(done, token + [s[0]], s[1..])
  }

  method Parse(value: string) returns (tokens: seq<Token>)
    ensures tokens == ParseFrom([], [], value)
    ensures tokens != []
  {
    tokens := [];
    var token: string := [];
    var i := 0;
    while i < |value|
      invariant 0 <= i <= |value|
      invariant ParseFrom(tokens, token, value[i..]) == ParseFrom([], [], value)
    {
      var ch := value[i];
      i := i + 1;
      if ch == '.' {
        tokens, token := tokens + [token], [];
      } else if ch == '\\' {
        if i < |value| {
          assert value[i - 1..][2..] == value[i + 1..];
          token := token + [value[i]];
          i := i + 1;
        }
      } else {
        token := token + [ch];
      }
    }
    tokens := tokens + [token];
  }

  predicate Plain(t: Token) {
    '\\' !in t
  }

  /** One escaped character at a time. */
  lemma EscapeCons(t: Token, rest: string)
    requires t != []
    ensures Escape(t) + rest == EscapeChar(t[0]) + (Escape(t[1..]) + rest)
  {}

  lemma ParseChar(done: seq<Token>, token: Token, c: char, rest: string)
    requires c != '\\'
    ensures ParseFrom(done, token, EscapeChar(c) + rest) == ParseFrom(done, token + [c], rest)
  {}

  lemma ParseBackslash(done: seq<Token>, token: Token, rest: string)
    requires rest != []
    ensures ParseFrom(done, token, ['\\'] + rest) == ParseFrom(done, token + [rest[0]], rest[1..])
  {
    assert (['\\'] + rest)[2..] == rest[1..];
  }

  lemma ParseDot(done: seq<Token>, token: Token, rest: string)
    ensures ParseFrom(done, token, ['.'] + rest) == ParseFrom(done + [token], [], rest)
  {}

  /** Moving a character from the front of one string to the end of another. */
  lemma Shift(a: string, b: string)
    requires b != []
    ensures (a + [b[0]]) + b[1..] == a + b
  {}

  lemma {:induction false} ParsePlain(done: seq<Token>, token: Token, t: Token, rest: string)
    requires Plain(t)
    ensures ParseFrom(done, token, Escape(t) + rest) == ParseFrom(done, token + t, rest)
    decreases t
  {
    if t == [] {
      assert Escape(t) + rest == rest && token + t == token;
    } else {
      assert Plain(t[1..]) && t[0] != '\\';
      hide *;
      EscapeCons(t, rest);
      ParseChar(done, token, t[0], Escape(t[1..]) + rest);
      ParsePlain(done, token + [t[0]], t[1..], rest);
      Shift(token, t);
    }
  }

  /** A first token without backslashes is parsed back. */
  lemma ParseFirst(done: seq<Token>, tokens: seq<Token>)
    requires tokens != [] && Plain(tokens[0])
    ensures ParseFrom(done, [], Print(tokens)) ==
      if |tokens| == 1 then done + tokens else ParseFrom(done + [tokens[0]], [], Print(tokens[1..]))
  {
    var t, rest := tokens[0], tokens[1..];
    ParsePlain(done, [], t, Tail(rest));
    assert [] + t == t;
    if rest == [] {
      assert done + [t] == done + tokens;
    } else {
      ParseDot(done, t, Print(rest));
    }
  }

  /** Tokens without backslashes are parsed back one by one. */
  lemma {:induction false} ParsePlainTokens(done: seq<Token>, tokens: seq<Token>, n: nat)
    requires n < |tokens| && forall i :: 0 <= i < n ==> Plain(tokens[i])
    ensures ParseFrom(done, [], Print(tokens)) == ParseFrom(done + tokens[..n], [], Print(tokens[n..]))
    decreases n
  {
    if n == 0 {
      assert done + tokens[..0] == done && tokens[0..] == tokens;
    } else {
      ParseFirst(done, tokens);
      hide *;
      ParsePlainTokens(done + [tokens[0]], tokens[1..], n - 1);
      assert done + [tokens[0]] + tokens[1..][..n - 1] == done + tokens[..n];
      assert tokens[1..][n - 1..] == tokens[n..];
    }
  }

  lemma RoundTrip(tokens: seq<Token>)
    requires tokens != [] && forall i :: 0 <= i < |tokens| ==> Plain(tokens[i])
    ensures ParseFrom([], [], Print(tokens)) == tokens
  {
    hide *;
    var n := |tokens| - 1;
    ParsePlainTokens([], tokens, n);
    assert tokens[n..] == [tokens[n]];
    ParseFirst(tokens[..n], tokens[n..]);
    assert [] + tokens[..n] == tokens[..n] && tokens[..n] + tokens[n..] == tokens;
  }

  // A backslash never survives.

  /** Parsing only adds to the complete tokens, and only extends the one under way. */
  lemma {:induction false} ParseExtends(done: seq<Token>, token: Token, s: string)
    ensures var r := ParseFrom(done, token, s); |r| > |done| && r[..|done|] == done && token <= r[|done|]
    decreases |s|
  {
    if s == [] {
    } else if s[0] == '.' {
      ParseExtends(done + [token], [], s[1..]);
      var r := ParseFrom(done + [token], [], s[1..]);
      assert r[..|done|] == r[..|done| + 1][..|done|] && r[|done|] == r[..|done| + 1][|done|];
    } else if s[0] == '\\' {
      if |s| >= 2 { ParseExtends(done, token + [s[1]], s[2..]); }
    } else {
      ParseExtends(done, token + [s[0]], s[1..]);
    }
  }

  /** Characters and tokens. */
  function Weight(tokens: seq<Token>): nat {
    if tokens == [] then 0 else Weight(tokens[..|tokens| - 1]) + |tokens[|tokens| - 1]| + 1
  }

  lemma {:induction false} WeightAppend(a: seq<Token>, b: seq<Token>)
    ensures Weight(a + b) == Weight(a) + Weight(b)
  {
    if b == [] {
      assert a + b == a;
    } else {
      assert (a + b)[..|a + b| - 1] == a + b[..|b| - 1];
      WeightAppend(a, b[..|b| - 1]);
    }
  }

  lemma WeightCons(tokens: seq<Token>)
    requires tokens != []
    ensures Weight(tokens) == |tokens[0]| + 1 + Weight(tokens[1..])
  {
    assert tokens == [tokens[0]] + tokens[1..] && [tokens[0]][..0] == [];
    WeightAppend([tokens[0]], tokens[1..]);
  }

  lemma WeightSnoc(tokens: seq<Token>, t: Token)
    ensures Weight(tokens + [t]) == Weight(tokens) + |t| + 1
  {}

  /** Parsing what was printed never yields more characters and tokens than were printed. */
  lemma {:induction false} ParseNoHeavier(done: seq<Token>, token: Token, t: Token, rest: seq<Token>)
    ensures Weight(ParseFrom(done, token, Escape(t) + Tail(rest))) <= Weight(done) + |token| + 1 + |t| + Weight(rest)
    decreases |t| + Weight(rest), 1
  {
    var s := Escape(t) + Tail(rest);
    if t == [] {
      assert s == Tail(rest);
      WeightSnoc(done, token);
      if rest != [] {
        WeightCons(rest);
        ParseDot(done, token, Print(rest));
        ParseNoHeavier(done + [token], [], rest[0], rest[1..]);
      }
    } else if t[0] != '\\' {
      EscapeCons(t, Tail(rest));
      ParseChar(done, token, t[0], Escape(t[1..]) + Tail(rest));
      ParseNoHeavier(done, token + [t[0]], t[1..], rest);
    } else {
      BackslashNoHeavier(done, token, t, rest);
    }
  }

  lemma {:induction false} BackslashNoHeavier(done: seq<Token>, token: Token, t: Token, rest: seq<Token>)
    requires t != [] && t[0] == '\\'
    ensures Weight(ParseFrom(done, token, Escape(t) + Tail(rest))) <= Weight(done) + |token| + 1 + |t| + Weight(rest)
    decreases |t| + Weight(rest), 0
  {
    EscapeCons(t, Tail(rest));
    var u := t[1..];
    var s := Escape(u) + Tail(rest);
    if u != [] {
      hide ParseFrom;
      ParseBackslash(done, token, s);
      EscapeCons(u, Tail(rest));
      var v := Escape(u[1..]) + Tail(rest);
      if u[0] == '.' {
        assert s[1..] == ['.'] + v;
        ParseDot(done, token + ['\\'], v);
        WeightSnoc(done, token + ['\\']);
        ParseNoHeavier(done + [token + ['\\']], [], u[1..], rest);
      } else {
        assert s[1..] == v;
        ParseNoHeavier(done, token + [u[0]], u[1..], rest);
      }
    } else if rest != [] {
      hide ParseFrom;
      assert s == ['.'] + Print(rest) && s[1..] == Print(rest);
      ParseBackslash(done, token, s);
      WeightCons(rest);
      ParseNoHeavier(done, token + ['.'], rest[0], rest[1..]);
    } else {
      assert s == [] && ['\\'] + s == ['\\'];
      WeightSnoc(done, token);
    }
  }

  lemma TailLost(done: seq<Token>, pre: Token, post: Token, rest: seq<Token>)
    ensures ParseFrom(done, pre, ['\\'] + (Escape(post) + Tail(rest))) != done + [pre + ['\\'] + post] + rest
  {
    var t, s := pre + ['\\'] + post, Escape(post) + Tail(rest);
    var r, all := ParseFrom(done, pre, ['\\'] + s), done + [pre + ['\\'] + post] + rest;
    assert all[|done|] == t && t[|pre|] == '\\';
    if s == [] {
      assert ['\\'] + s == ['\\'] && r[|done|] == pre;
    } else {
      ParseBackslash(done, pre, s);
      hide ParseFrom;
      if s[0] != '\\' {
        ParseExtends(done, pre + [s[0]], s[1..]);
        assert r[|done|][|pre|] == s[0];
      } else {
        EscapeCons(post, Tail(rest));
        var v := Escape(post[1..]) + Tail(rest);
        if post[0] == '.' {
          assert s[1..] == ['.'] + v;
          ParseDot(done, pre + ['\\'], v);
          ParseExtends(done + [pre + ['\\']], [], v);
          assert r[|done|] == r[..|done| + 1][|done|] == pre + ['\\'];
        } else {
          assert s[1..] == v;
          ParseNoHeavier(done, pre + ['\\'], post[1..], rest);
          WeightSnoc(done, t);
          WeightAppend(done + [t], rest);
        }
      }
    }
  }

  /** A token whose first backslash follows `pre` is not parsed back. */
  lemma BackslashLost(done: seq<Token>, t: Token, pre: Token, post: Token, rest: seq<Token>)
    requires Plain(pre) && t == pre + ['\\'] + post
    ensures ParseFrom(done, [], Escape(t) + Tail(rest)) != done + [t] + rest
  {
    var s := Escape(post) + Tail(rest);
    assert Escape(t) + Tail(rest) == Escape(pre) + (['\\'] + s) by {
      assert t == pre + (['\\'] + post) && (['\\'] + post)[1..] == post;
      EscapeAppend(pre, ['\\'] + post);
      EscapeCons(['\\'] + post, Tail(rest));
      Assoc(Escape(pre), Escape(['\\'] + post), Tail(rest));
    }
    hide *;
    ParsePlain(done, [], pre, ['\\'] + s);
    assert [] + pre == pre;
    TailLost(done, pre, post, rest);
  }

  lemma {:induction false} FirstBackslash(t: Token) returns (pre: Token, post: Token)
    requires !Plain(t)
    ensures Plain(pre) && t == pre + ['\\'] + post
  {
    if t[0] == '\\' {
      pre, post := [], t[1..];
    } else {
      pre, post := FirstBackslash(t[1..]);
      pre := [t[0]] + pre;
    }
  }

  lemma PrintFrom(tokens: seq<Token>, n: nat)
    requires n < |tokens|
    ensures Print(tokens[n..]) == Escape(tokens[n]) + Tail(tokens[n + 1..])
    ensures [] + tokens[..n] == tokens[..n] && tokens == tokens[..n] + [tokens[n]] + tokens[n + 1..]
  {}

  lemma StainedLost(tokens: seq<Token>, n: nat)
    requires n < |tokens| && !Plain(tokens[n]) && forall i :: 0 <= i < n ==> Plain(tokens[i])
    ensures ParseFrom([], [], Print(tokens)) != tokens
  {
    hide *;
    ParsePlainTokens([], tokens, n);
    PrintFrom(tokens, n);
    var pre, post := FirstBackslash(tokens[n]);
    BackslashLost(tokens[..n], tokens[n], pre, post, tokens[n + 1..]);
  }

  lemma {:induction false} FirstStained(tokens: seq<Token>) returns (n: nat)
    requires !forall i :: 0 <= i < |tokens| ==> Plain(tokens[i])
    ensures n < |tokens| && !Plain(tokens[n]) && forall i :: 0 <= i < n ==> Plain(tokens[i])
  {
    n := 0;
    while Plain(tokens[n])
      invariant n < |tokens| && forall i :: 0 <= i < n ==> Plain(tokens[i])
      decreases |tokens| - n
    {
      n := n + 1;
    }
  }

  /** Parsing a printed path gives the tokens back exactly if there is a token and none contains a backslash. */
  lemma RoundTripIff(tokens: seq<Token>)
    ensures ParseFrom([], [], Print(tokens)) == tokens <==> tokens != [] && forall i :: 0 <= i < |tokens| ==> Plain(tokens[i])
  {
    if tokens == [] {
      assert Print(tokens) == [];
    } else if forall i :: 0 <= i < |tokens| ==> Plain(tokens[i]) {
      RoundTrip(tokens);
    } else {
      var n := FirstStained(tokens);
      StainedLost(tokens, n);
    }
  }
}
