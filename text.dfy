/** SQL text with positional `?` placeholders, and what binding arguments to it means. */
module Text {
  import opened Wrappers
  import opened Values

  /** `xs.join(sep)`. */
  function Join(xs: seq<string>, sep: string): string
  {
    if xs == [] then ""
    else if |xs| == 1 then xs[0]
    else xs[0] + sep + Join(xs[1..], sep)
  }

  /** `"?"` repeated `n` times, joined by `", "`: what `values.map(() => "?").join(", ")` yields. */
  function Placeholders(n: nat): string
  {
    Join(Marks(n), ", ")
  }

  /** `n` copies of `"?"`. */
  function Marks(n: nat): (r: seq<string>)
    ensures |r| == n && forall i :: 0 <= i < n ==> r[i] == "?"
  {
    seq(n, _ => "?")
  }

  /** True when `s` contains no `?`, so that it holds no placeholder. */
  predicate NoMarks(s: string)
  {
    '?' !in s
  }

  /** Number of placeholders in `s`. */
  function CountMarks(s: string): nat
  {
    if s == [] then 0 else (if s[0] == '?' then 1 else 0) + CountMarks(s[1..])
  }

  /** One position of a statement once its arguments are bound: a character of
      the SQL text, or the value that fills a placeholder. */
  datatype Piece = Chr(c: char) | Bound(v: Value)

  /** Text without placeholders, as pieces. */
  function Lit(s: string): (r: seq<Piece>)
    ensures |r| == |s|
    ensures forall i :: 0 <= i < |s| ==> r[i] == Chr(s[i])
  {
    seq(|s|, i requires 0 <= i < |s| => Chr(s[i]))
  }

  /** Binds `args` to the placeholders of `sql`, left to right: the i-th `?`
      becomes `Bound(args[i])`. `None` when there are too few or too many arguments. */
  function Inline(sql: string, args: seq<Value>): Option<seq<Piece>>
  {
    if sql == [] then
      if args == [] then Some([]) else None
    else if sql[0] == '?' then
      if args == [] then None
      else match Inline(sql[1..], args[1..])
        case None => None
        case Some(rest) => Some([Bound(args[0])] + rest)
    else
      match Inline(sql[1..], args)
      case None => None
      case Some(rest) => Some([Chr(sql[0])] + rest)
  }

  /** `parts.join(sep)` over pieces. */
  function JoinPieces(parts: seq<seq<Piece>>, sep: seq<Piece>): seq<Piece>
  {
    if parts == [] then []
    else if |parts| == 1 then parts[0]
    else parts[0] + sep + JoinPieces(parts[1..], sep)
  }

  /** The concatenation of a list of argument lists. */
  function Flatten(argss: seq<seq<Value>>): seq<Value>
  {
    if argss == [] then [] else argss[0] + Flatten(argss[1..])
  }

  /** Each value of `vs` in a placeholder of its own, separated by `", "`. */
  function BoundList(vs: seq<Value>): (r: seq<Piece>)
  {
    JoinPieces(Boxes(vs), Lit(", "))
  }

  /** Binding succeeds exactly when there are as many arguments as placeholders. */
  lemma {:induction false} InlineDefinedIff(sql: string, args: seq<Value>)
    ensures Inline(sql, args).Some? <==> CountMarks(sql) == |args|
    decreases |sql|
  {
    if sql != [] {
      if sql[0] == '?' {
        if args != [] { InlineDefinedIff(sql[1..], args[1..]); }
      } else {
        InlineDefinedIff(sql[1..], args);
      }
    }
  }

  /** Text without placeholders binds no argument and stays as it is. */
  lemma {:induction false} InlineLit(s: string)
    requires NoMarks(s)
    ensures Inline(s, []) == Some(Lit(s))
    decreases |s|
  {
    if s != [] {
      InlineLit(s[1..]);
      assert Lit(s) == [Chr(s[0])] + Lit(s[1..]);
    }
  }

  /** Binding distributes over concatenation: the arguments of the left text fill
      the left placeholders and the rest fill the right ones. */
  lemma {:induction false} InlineAppend(s1: string, a1: seq<Value>, s2: string, a2: seq<Value>)
    requires Inline(s1, a1).Some? && Inline(s2, a2).Some?
    ensures Inline(s1 + s2, a1 + a2) == Some(Inline(s1, a1).value + Inline(s2, a2).value)
    decreases |s1|
  {
    if s1 == [] {
      assert s1 + s2 == s2;
      assert a1 == [] && Inline(s1, a1).value == [];
      assert a1 + a2 == a2;
      assert [] + Inline(s2, a2).value == Inline(s2, a2).value;
    } else {
      assert (s1 + s2)[0] == s1[0] && (s1 + s2)[1..] == s1[1..] + s2;
      if s1[0] == '?' {
        assert a1 != [];
        assert (a1 + a2)[0] == a1[0] && (a1 + a2)[1..] == a1[1..] + a2;
        InlineAppend(s1[1..], a1[1..], s2, a2);
        var rest1 := Inline(s1[1..], a1[1..]).value;
        assert Inline(s1, a1).value == [Bound(a1[0])] + rest1;
        assert Inline(s1 + s2, a1 + a2).value == [Bound(a1[0])] + (rest1 + Inline(s2, a2).value);
        assert [Bound(a1[0])] + (rest1 + Inline(s2, a2).value) == ([Bound(a1[0])] + rest1) + Inline(s2, a2).value;
      } else {
        InlineAppend(s1[1..], a1, s2, a2);
        var rest1 := Inline(s1[1..], a1).value;
        assert Inline(s1, a1).value == [Chr(s1[0])] + rest1;
        assert Inline(s1 + s2, a1 + a2).value == [Chr(s1[0])] + (rest1 + Inline(s2, a2).value);
        assert [Chr(s1[0])] + (rest1 + Inline(s2, a2).value) == ([Chr(s1[0])] + rest1) + Inline(s2, a2).value;
      }
    }
  }

  /** Three-part form of `InlineAppend`, the shape of most statements. */
  lemma InlineAppend3(s1: string, a1: seq<Value>, s2: string, a2: seq<Value>, s3: string, a3: seq<Value>)
    requires Inline(s1, a1).Some? && Inline(s2, a2).Some? && Inline(s3, a3).Some?
    ensures Inline(s1 + s2 + s3, a1 + a2 + a3)
         == Some(Inline(s1, a1).value + Inline(s2, a2).value + Inline(s3, a3).value)
  {
    InlineAppend(s1, a1, s2, a2);
    InlineAppend(s1 + s2, a1 + a2, s3, a3);
  }

  /** Joining bound texts with a separator free of placeholders binds the
      concatenated argument lists and joins the bound pieces. */
  lemma {:induction false} InlineJoin(texts: seq<string>, argss: seq<seq<Value>>, parts: seq<seq<Piece>>, sep: string)
    requires |texts| == |argss| == |parts|
    requires forall i :: 0 <= i < |texts| ==> Inline(texts[i], argss[i]) == Some(parts[i])
    requires NoMarks(sep)
    ensures Inline(Join(texts, sep), Flatten(argss)) == Some(JoinPieces(parts, Lit(sep)))
    decreases |texts|
  {
    if |texts| == 0 {
    } else if |texts| == 1 {
      assert Flatten(argss) == argss[0] + [];
      assert argss[0] + [] == argss[0];
    } else {
      InlineJoin(texts[1..], argss[1..], parts[1..], sep);
      InlineLit(sep);
      InlineAppend3(texts[0], argss[0], sep, [], Join(texts[1..], sep), Flatten(argss[1..]));
      assert argss[0] + [] + Flatten(argss[1..]) == Flatten(argss);
    }
  }

  /** `Placeholders(|vs|)` bound to `vs` puts each value, in order, in its own placeholder. */
  lemma PlaceholdersBind(vs: seq<Value>)
    ensures CountMarks(Placeholders(|vs|)) == |vs|
    ensures Inline(Placeholders(|vs|), vs) == Some(BoundList(vs))
  {
    var texts := Marks(|vs|);
    var argss := Units(vs);
    var parts := Boxes(vs);
    forall i | 0 <= i < |vs|
      ensures Inline(texts[i], argss[i]) == Some(parts[i])
    {
      InlineMark(vs[i]);
    }
    FlattenUnits(vs);
    InlineLit(", ");
    InlineJoin(texts, argss, parts, ", ");
    InlineDefinedIff(Placeholders(|vs|), vs);
  }

  /** Each value as an argument list of its own. */
  function Units(vs: seq<Value>): (r: seq<seq<Value>>)
    ensures |r| == |vs| && forall i :: 0 <= i < |vs| ==> r[i] == [vs[i]]
  {
    seq(|vs|, i requires 0 <= i < |vs| => [vs[i]])
  }

  /** Each value as a lone bound placeholder. */
  function Boxes(vs: seq<Value>): (r: seq<seq<Piece>>)
    ensures |r| == |vs| && forall i :: 0 <= i < |vs| ==> r[i] == [Bound(vs[i])]
  {
    seq(|vs|, i requires 0 <= i < |vs| => [Bound(vs[i])])
  }

  lemma InlineMark(v: Value)
    ensures Inline("?", [v]) == Some([Bound(v)])
  {
    var sql: string, args := "?", [v];
    assert sql[0] == '?' && sql[1..] == [] && args[0] == v && args[1..] == [];
    assert Inline(sql[1..], args[1..]) == Some([]);
    assert [Bound(v)] + [] == [Bound(v)];
  }

  lemma {:induction false} FlattenUnits(vs: seq<Value>)
    ensures Flatten(Units(vs)) == vs
    decreases |vs|
  {
    if vs != [] {
      FlattenUnits(vs[1..]);
      assert Units(vs)[1..] == Units(vs[1..]);
    }
  }

  lemma NoMarksAppend(a: string, b: string)
    requires NoMarks(a) && NoMarks(b)
    ensures NoMarks(a + b)
  {
    assert forall i :: |a| <= i < |a + b| ==> (a + b)[i] == b[i - |a|];
  }

  /** Text around a bound part: the literal parts stay as they are. */
  lemma InlineAround(prefix: string, middle: string, args: seq<Value>, suffix: string)
    requires NoMarks(prefix) && NoMarks(suffix)
    requires Inline(middle, args).Some?
    ensures Inline(prefix + middle + suffix, args) == Some(Lit(prefix) + Inline(middle, args).value + Lit(suffix))
  {
    InlineLit(prefix);
    InlineLit(suffix);
    InlineAppend3(prefix, [], middle, args, suffix, []);
    assert [] + args + [] == args;
  }

  /** `Join` of texts without placeholders has none. */
  lemma {:induction false} JoinNoMarks(xs: seq<string>, sep: string)
    requires forall i :: 0 <= i < |xs| ==> NoMarks(xs[i])
    requires NoMarks(sep)
    ensures NoMarks(Join(xs, sep))
    decreases |xs|
  {
    if |xs| > 1 {
      JoinNoMarks(xs[1..], sep);
    }
  }
}
