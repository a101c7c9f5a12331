/** PreFixPrintTree4File and PrintTree2File: the prefix text of a tree. */
module TreePrint {
  import opened Common
  import opened Trees

  /** Every constant node's index is inside the constant table. */
  predicate ConstantsIndexed(t: Tree, constants: seq<real>)
  {
    match t
    case Nil => true
    case Node(status, id, _, l, r, _) =>
      (status == Constant ==> 0 <= id < |constants|)
      && ConstantsIndexed(l, constants) && ConstantsIndexed(r, constants)
  }

  /** The text a node prints for itself: its constant formatted with %lf
      (the formatting is the parameter fmt) or its name. */
  function Atom(t: Tree, constants: seq<real>, fmt: real -> string): string
    requires t.Node? && ConstantsIndexed(t, constants)
  {
    if t.status == Constant then fmt(constants[t.id]) else t.elem
  }

  /** PreFixPrintTree4File: a non-terminal node is wrapped in parentheses;
      each node prints its atom and one space, then its left and its right
      subtree. */
  function PreFix(t: Tree, constants: seq<real>, fmt: real -> string): (r: string)
    requires ConstantsIndexed(t, constants)
    ensures r == "" <==> t == Nil
  {
    match t
    case Nil => ""
    case Node(status, _, _, l, r, _) =>
      (if status != Terminal then "(" else "")
      + (Atom(t, constants, fmt) + " ")
      + PreFix(l, constants, fmt) + PreFix(r, constants, fmt)
      + (if status != Terminal then ")" else "")
  }

  /** PrintTree2File: appends the prefix text and a newline to the file's
      contents; an empty tree terminates the process. */
  function PrintTree2File(file: string, t: Tree, constants: seq<real>, fmt: real -> string): (r: Outcome<string>)
    requires ConstantsIndexed(t, constants)
    ensures r.Exited? <==> t == Nil
    ensures r.Returned? ==> |r.value| == |file| + |PreFix(t, constants, fmt)| + 1
    ensures r.Returned? ==> r.value[..|file|] == file && r.value[|r.value| - 1] == '\n'
    ensures r.Returned? ==> r.value[|file|..|r.value| - 1] == PreFix(t, constants, fmt)
  {
    if t == Nil then Exited
    else
      var out := file + PreFix(t, constants, fmt) + "\n";
      assert out[..|file|] == file;
      assert out[|file|..|out| - 1] == PreFix(t, constants, fmt);
      Returned(out)
  }

  function Count(c: char, s: string): nat
  {
    if s == [] then 0 else (if s[0] == c then 1 else 0) + Count(c, s[1..])
  }

  lemma {:induction false} CountConcat(c: char, a: string, b: string)
    ensures Count(c, a + b) == Count(c, a) + Count(c, b)
  {
    if a == [] {
      assert a + b == b;
    } else {
      assert (a + b)[0] == a[0];
      assert (a + b)[1..] == a[1..] + b;
      CountConcat(c, a[1..], b);
    }
  }

  lemma {:induction false} CountAbsent(c: char, s: string)
    requires c !in s
    ensures Count(c, s) == 0
  {
    if s != [] {
      CountAbsent(c, s[1..]);
    }
  }

  /** Opening minus closing parentheses. */
  function Net(s: string): int
  {
    Count('(', s) - Count(')', s)
  }

  /** Parentheses match: as many of each, and no prefix closes more than it
      opened. */
  ghost predicate Balanced(s: string)
  {
    Net(s) == 0 && forall k :: 0 <= k <= |s| ==> Net(s[..k]) >= 0
  }

  lemma NetConcat(a: string, b: string)
    ensures Net(a + b) == Net(a) + Net(b)
  {
    CountConcat('(', a, b);
    CountConcat(')', a, b);
  }

  lemma ParenFreeBalanced(s: string)
    requires '(' !in s && ')' !in s
    ensures Balanced(s)
  {
    forall k | 0 <= k <= |s|
      ensures Net(s[..k]) == 0
    {
      CountAbsent('(', s[..k]);
      CountAbsent(')', s[..k]);
    }
    CountAbsent('(', s);
    CountAbsent(')', s);
  }

  lemma BalancedConcat(a: string, b: string)
    requires Balanced(a) && Balanced(b)
    ensures Balanced(a + b)
  {
    NetConcat(a, b);
    forall k | 0 <= k <= |a + b|
      ensures Net((a + b)[..k]) >= 0
    {
      if k <= |a| {
        assert (a + b)[..k] == a[..k];
      } else {
        assert (a + b)[..k] == a + b[..k - |a|];
        NetConcat(a, b[..k - |a|]);
      }
    }
  }

  lemma BalancedWrap(s: string)
    requires Balanced(s)
    ensures Balanced("(" + s + ")")
  {
    var w := "(" + s + ")";
    NetConcat("(" + s, ")");
    NetConcat("(", s);
    forall k | 0 <= k <= |w|
      ensures Net(w[..k]) >= 0
    {
      if k == 0 {
        assert w[..k] == "";
      } else if k <= |s| + 1 {
        assert w[..k] == "(" + s[..k - 1];
        NetConcat("(", s[..k - 1]);
      } else {
        assert w[..k] == w;
      }
    }
  }

  /** No atom of the tree contains a parenthesis. */
  predicate AtomsParenFree(t: Tree, constants: seq<real>, fmt: real -> string)
    requires ConstantsIndexed(t, constants)
  {
    match t
    case Nil => true
    case Node(_, _, _, l, r, _) =>
      '(' !in Atom(t, constants, fmt) && ')' !in Atom(t, constants, fmt)
      && AtomsParenFree(l, constants, fmt) && AtomsParenFree(r, constants, fmt)
  }

  function NonTerminals(t: Tree): nat
  {
    match t
    case Nil => 0
    case Node(status, _, _, l, r, _) =>
      (if status != Terminal then 1 else 0) + NonTerminals(l) + NonTerminals(r)
  }

  lemma CountFive(c: char, p1: string, p2: string, p3: string, p4: string, p5: string)
    ensures Count(c, p1 + p2 + p3 + p4 + p5)
         == Count(c, p1) + Count(c, p2) + Count(c, p3) + Count(c, p4) + Count(c, p5)
  {
    CountConcat(c, p1 + p2 + p3 + p4, p5);
    CountConcat(c, p1 + p2 + p3, p4);
    CountConcat(c, p1 + p2, p3);
    CountConcat(c, p1, p2);
  }

  /** The text of one node has the shape open + atom + left + right + close. */
  lemma PreFixNode(t: Tree, constants: seq<real>, fmt: real -> string)
    requires t.Node? && ConstantsIndexed(t, constants)
    ensures PreFix(t, constants, fmt)
         == (if t.status != Terminal then "(" else "") + (Atom(t, constants, fmt) + " ")
            + PreFix(t.left, constants, fmt) + PreFix(t.right, constants, fmt)
            + (if t.status != Terminal then ")" else "")
  {
  }

  /** A non-terminal node's text is wrapped in parentheses; a terminal
      node's text starts with its name and a space. */
  lemma PreFixWrapped(t: Tree, constants: seq<real>, fmt: real -> string)
    requires t.Node? && ConstantsIndexed(t, constants)
    ensures var s := PreFix(t, constants, fmt);
      t.status != Terminal ==> |s| >= 2 && s[0] == '(' && s[|s| - 1] == ')'
    ensures var s := PreFix(t, constants, fmt);
      t.status == Terminal ==> |s| > |t.elem| && s[..|t.elem| + 1] == t.elem + " "
  {
    PreFixNode(t, constants, fmt);
    ShapeOfNode(if t.status != Terminal then "(" else "", Atom(t, constants, fmt) + " ",
                PreFix(t.left, constants, fmt), PreFix(t.right, constants, fmt),
                if t.status != Terminal then ")" else "");
  }

  /** The first and last characters, and the head, of a node's text. */
  lemma ShapeOfNode(open: string, a: string, l: string, r: string, close: string)
    ensures var s := open + a + l + r + close;
      (open == "(" && close == ")" ==> |s| >= 2 && s[0] == '(' && s[|s| - 1] == ')')
      && (open == "" && close == "" ==> |s| >= |a| && s[..|a|] == a)
  {
    var s := open + a + l + r + close;
    if open == "" && close == "" {
      assert s == a + (l + r);
    }
  }

  /** One opening and one closing parenthesis per non-terminal node. */
  lemma {:induction false} PreFixParenCount(t: Tree, constants: seq<real>, fmt: real -> string)
    requires ConstantsIndexed(t, constants) && AtomsParenFree(t, constants, fmt)
    ensures Count('(', PreFix(t, constants, fmt)) == NonTerminals(t)
    ensures Count(')', PreFix(t, constants, fmt)) == NonTerminals(t)
  {
    match t
    case Nil =>
    case Node(status, _, _, l, r, _) =>
      var open := if status != Terminal then "(" else "";
      var close := if status != Terminal then ")" else "";
      var a := Atom(t, constants, fmt) + " ";
      var pl, pr := PreFix(l, constants, fmt), PreFix(r, constants, fmt);
      PreFixNode(t, constants, fmt);
      PreFixParenCount(l, constants, fmt);
      PreFixParenCount(r, constants, fmt);
      CountAbsent('(', a);
      CountAbsent(')', a);
      CountAbsent(')', open);
      CountAbsent('(', close);
      assert Count('(', open) == (if status != Terminal then 1 else 0);
      assert Count(')', close) == (if status != Terminal then 1 else 0);
      CountFive('(', open, a, pl, pr, close);
      CountFive(')', open, a, pl, pr, close);
  }

  /** A node's text is balanced when its parts are. */
  lemma BalancedNode(wrap: bool, a: string, pl: string, pr: string)
    requires '(' !in a && ')' !in a && Balanced(pl) && Balanced(pr)
    ensures Balanced((if wrap then "(" else "") + a + pl + pr + (if wrap then ")" else ""))
  {
    ParenFreeBalanced(a);
    BalancedConcat(a, pl);
    BalancedConcat(a + pl, pr);
    if wrap {
      BalancedWrap(a + pl + pr);
      assert "(" + a + pl + pr + ")" == "(" + (a + pl + pr) + ")";
    } else {
      assert "" + a + pl + pr + "" == a + pl + pr;
    }
  }

  /** The prefix text is balanced. */
  lemma {:induction false} PreFixBalanced(t: Tree, constants: seq<real>, fmt: real -> string)
    requires ConstantsIndexed(t, constants) && AtomsParenFree(t, constants, fmt)
    ensures Balanced(PreFix(t, constants, fmt))
  {
    match t
    case Nil =>
      ParenFreeBalanced("");
    case Node(status, _, _, l, r, _) =>
      PreFixBalanced(l, constants, fmt);
      PreFixBalanced(r, constants, fmt);
      PreFixNode(t, constants, fmt);
      BalancedNode(status != Terminal, Atom(t, constants, fmt) + " ",
                   PreFix(l, constants, fmt), PreFix(r, constants, fmt));
  }

  /** SUM over the terminals x0 and x1 prints as "(SUM x0 x1 )". */
  lemma PreFixSumExample(constants: seq<real>, fmt: real -> string)
    ensures var t := Node(Function, 0, "SUM", Node(Terminal, 0, "x0", Nil, Nil, true),
                          Node(Terminal, 1, "x1", Nil, Nil, false), true);
      ConstantsIndexed(t, constants) && PreFix(t, constants, fmt) == "(SUM x0 x1 )"
  {
    var x0, x1 := Node(Terminal, 0, "x0", Nil, Nil, true), Node(Terminal, 1, "x1", Nil, Nil, false);
    assert PreFix(x0, constants, fmt) == "x0 ";
    assert PreFix(x1, constants, fmt) == "x1 ";
    var t := Node(Function, 0, "SUM", x0, x1, true);
    assert PreFix(t, constants, fmt) == "(" + "SUM" + " " + "x0 " + "x1 " + ")";
  }
}
