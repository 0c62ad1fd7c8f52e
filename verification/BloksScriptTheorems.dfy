/**
 What the Bloks parser promises: it reads back exactly what a one-line rendering writes, whatever follows it.
 (The repository's own Print puts arguments on lines of their own, and a newline is not a separator.)
 */
module BloksScriptTheorems {
  import opened Common
  import opened Decimal
  import opened BloksScript

  predicate LegalName(fn: string) {
    |fn| > 0 && forall k :: 0 <= k < |fn| ==> IsNameChar(fn[k])
  }

  predicate Legal(node: Node) {
    match node
    case Literal(Int(i)) => IsInt64(i)
    case Literal(_) => true
    case Funcall(fn, args) => LegalName(fn) && forall arg :: arg in args ==> Legal(arg)
  }

  function Escape(s: string): string {
    if s == "" then ""
    else (if s[0] == '"' || s[0] == '\\' then ['\\', s[0]] else if s[0] == '\n' then "\\n" else [s[0]]) + Escape(s[1..])
  }

  function Render(node: Node): (text: string)
    ensures |text| > 0
  {
    match node
    case Literal(Null) => "null"
    case Literal(Bool(b)) => if b then "true" else "false"
    case Literal(Int(i)) => IntText(i)
    case Literal(Str(s)) => "\"" + Escape(s) + "\""
    case Funcall(fn, args) => "(" + fn + RenderArgs(args)
  }

  function RenderArgs(args: seq<Node>): (text: string)
    ensures |text| > 0 && IsTerminator(text[0])
  {
    if args == [] then ")" else " " + Render(args[0]) + RenderArgs(args[1..])
  }

  /** The text stands in the code at index p. */
  ghost predicate StandsAt(text: string, code: string, p: nat) {
    p + |text| <= |code| && code[p..p + |text|] == text
  }

  lemma {:induction false} StandsAtParts(a: string, b: string, code: string, p: nat)
    requires StandsAt(a + b, code, p)
    ensures StandsAt(a, code, p) && StandsAt(b, code, p + |a|)
    ensures |a| > 0 ==> code[p] == a[0]
    ensures |b| > 0 ==> code[p + |a|] == b[0]
  {
    var whole := code[p..p + |a + b|];
    assert whole[..|a|] == a && whole[|a|..] == b;
    assert code[p..p + |a|] == whole[..|a|];
    assert code[p + |a|..p + |a| + |b|] == whole[|a|..];
  }

  lemma {:induction false} SkipWhileStopsAt(inClass: char -> bool, code: string, i: nat, j: nat)
    requires i <= j <= |code|
    requires forall k :: i <= k < j ==> inClass(code[k])
    requires j < |code| ==> !inClass(code[j])
    ensures SkipWhile(inClass, code, i) == j
    decreases j - i
  {
    if i < j {
      SkipWhileStopsAt(inClass, code, i + 1, j);
    }
  }

  lemma {:induction false} ParseStringOfEscape(s: string, code: string, p: nat, chars: string)
    requires StandsAt(Escape(s) + "\"", code, p)
    ensures ParseString(code, p, chars) == Read(Str(chars + s), p + |Escape(s)| + 1)
    decreases |s|
  {
    if s == "" {
      assert code[p..p + 1][0] == '"';
      assert chars + s == chars;
    } else {
      var head := if s[0] == '"' || s[0] == '\\' then ['\\', s[0]] else if s[0] == '\n' then "\\n" else [s[0]];
      assert Escape(s) + "\"" == head + (Escape(s[1..]) + "\"");
      StandsAtParts(head, Escape(s[1..]) + "\"", code, p);
      assert code[p] == code[p..p + |head|][0] == head[0];
      if |head| == 2 {
        assert code[p + 1] == code[p..p + |head|][1] == head[1];
      }
      ParseStringOfEscape(s[1..], code, p + |head|, chars + [s[0]]);
      assert chars + [s[0]] + s[1..] == chars + s;
    }
  }

  lemma {:induction false} ParseNameOf(fn: string, code: string, p: nat)
    requires LegalName(fn) && StandsAt(fn, code, p)
    requires p + |fn| < |code| && IsTerminator(code[p + |fn|])
    ensures ParseName(code, p) == Read(fn, p + |fn|)
  {
    forall k | p <= k < p + |fn| ensures IsNameChar(code[k]) {
      assert code[k] == code[p..p + |fn|][k - p];
    }
    SkipWhileStopsAt(IsSeparator, code, p, p);
    SkipWhileStopsAt(IsNameChar, code, p, p + |fn|);
  }

  lemma {:induction false} IntTextChars(i: int)
    ensures |IntText(i)| > 0 && '.' !in IntText(i)
    ensures forall k :: 0 <= k < |IntText(i)| ==> IsNumberChar(IntText(i)[k])
  {
  }

  lemma {:induction false} ParseWordOf(value: Value, code: string, p: nat)
    requires value.Null? || value.Bool?
    requires StandsAt(Render(Literal(value)), code, p) && p + |Render(Literal(value))| < |code|
    ensures ParseLiteral(code, p) == Read(value, p + |Render(Literal(value))|)
  {
    var text := Render(Literal(value));
    StandsAtParts(text, "", code, p);
    assert text + "" == text;
    SkipWhileStopsAt(IsNumberChar, code, p, p);
    if HasWord(code, p, "null") {
      assert code[p] == code[p..p + 4][0] == 'n';
    } else if HasWord(code, p, "true") {
      assert code[p] == code[p..p + 4][0] == 't';
    }
  }

  lemma {:induction false} ParseIntegerOf(i: int, code: string, p: nat)
    requires IsInt64(i) && StandsAt(IntText(i), code, p)
    requires p + |IntText(i)| < |code| && IsTerminator(code[p + |IntText(i)|])
    ensures ParseLiteral(code, p) == Read(Int(i), p + |IntText(i)|)
  {
    var end := p + |IntText(i)|;
    IntTextChars(i);
    forall k | p <= k < end ensures IsNumberChar(code[k]) {
      assert code[k] == code[p..end][k - p];
    }
    SkipWhileStopsAt(IsNumberChar, code, p, end);
    ParseIntText(i);
  }

  lemma {:induction false} ParseStringLiteralOf(s: string, code: string, p: nat)
    requires StandsAt("\"" + Escape(s) + "\"", code, p)
    ensures ParseLiteral(code, p) == Read(Str(s), p + |Escape(s)| + 2)
  {
    var body := Escape(s) + "\"";
    assert "\"" + Escape(s) + "\"" == "\"" + body;
    StandsAtParts("\"", body, code, p);
    SkipWhileStopsAt(IsNumberChar, code, p, p);
    ParseStringOfEscape(s, code, p + 1, "");
    assert "" + s == s;
  }

  lemma {:induction false} ParseLiteralOf(value: Value, code: string, p: nat)
    requires Legal(Literal(value)) && StandsAt(Render(Literal(value)), code, p)
    requires p + |Render(Literal(value))| < |code| && IsTerminator(code[p + |Render(Literal(value))|])
    ensures !IsSeparator(code[p]) && code[p] != '(' && code[p] != ')'
    ensures ParseLiteral(code, p) == Read(value, p + |Render(Literal(value))|)
  {
    var text := Render(Literal(value));
    assert code[p] == code[p..p + |text|][0] == text[0];
    match value {
      case Int(i) => IntTextChars(i); ParseIntegerOf(i, code, p);
      case Str(s) => ParseStringLiteralOf(s, code, p);
      case _ => ParseWordOf(value, code, p);
    }
  }

  /** An argument, from the separators in front of it on. */
  lemma {:induction false} ParseAnyOf(node: Node, code: string, start: nat, p: nat)
    requires Legal(node) && start <= p && StandsAt(Render(node), code, p)
    requires forall k :: start <= k < p ==> IsSeparator(code[k])
    requires node.Literal? ==> p + |Render(node)| < |code| && IsTerminator(code[p + |Render(node)|])
    ensures ParseAny(code, start) == Read(node, p + |Render(node)|)
    decreases node, 2
  {
    if node.Literal? {
      ParseLiteralOf(node.value, code, p);
    } else {
      ParseFuncallOf(node, code, p);
    }
    SkipWhileStopsAt(IsSeparator, code, start, p);
  }

  lemma {:induction false} ParseFuncallOf(call: Node, code: string, p: nat)
    requires call.Funcall? && Legal(call) && StandsAt(Render(call), code, p)
    ensures code[p] == '(' && ParseFuncall(code, p) == Read(call, p + |Render(call)|)
    decreases call, 1
  {
    FuncallStandsInOrder(call, code, p);
    var name, next := p + 1, p + 1 + |call.fn|;
    ParseNameOf(call.fn, code, name);
    ParseArgsOf(call.args, code, next);
    FuncallStep(code, p, call.fn, call.args, next, p + |Render(call)|);
  }

  lemma {:induction false} FuncallStep(code: string, p: nat, fn: string, args: seq<Node>, next: nat, close: nat)
    requires p < |code| && next <= |code| && ParseName(code, p + 1) == Read(fn, next) && ParseArgs(code, next) == Read(args, close)
    ensures ParseFuncall(code, p) == Read(Funcall(fn, args), close)
  {
  }

  lemma {:induction false} FuncallStandsInOrder(call: Node, code: string, p: nat)
    requires call.Funcall? && StandsAt(Render(call), code, p)
    ensures var next := p + 1 + |call.fn|;
            && |Render(call)| == 1 + |call.fn| + |RenderArgs(call.args)|
            && code[p] == '(' && StandsAt(call.fn, code, p + 1)
            && StandsAt(RenderArgs(call.args), code, next) && IsTerminator(code[next])
  {
    RenderedCall(call);
    TextsStandInOrder("(", call.fn, RenderArgs(call.args), code, p);
  }

  lemma {:induction false} RenderedCall(call: Node)
    requires call.Funcall?
    ensures Render(call) == "(" + (call.fn + RenderArgs(call.args))
  {
  }

  /** One character, a text and what follows it. */
  lemma {:induction false} TextsStandInOrder(first: string, text: string, rest: string, code: string, p: nat)
    requires |first| == 1 && rest != "" && StandsAt(first + (text + rest), code, p)
    ensures code[p] == first[0] && StandsAt(text, code, p + 1)
    ensures StandsAt(rest, code, p + 1 + |text|) && code[p + 1 + |text|] == rest[0]
  {
    StandsAtParts(first, text + rest, code, p);
    StandsAtParts(text, rest, code, p + 1);
  }

  lemma {:induction false} ParseArgsOf(args: seq<Node>, code: string, p: nat)
    requires forall arg :: arg in args ==> Legal(arg)
    requires StandsAt(RenderArgs(args), code, p)
    ensures ParseArgs(code, p) == Read(args, p + |RenderArgs(args)|)
    decreases args, 1
  {
    if args == [] {
      ParseNoArgs(code, p);
    } else {
      ArgsStandInOrder(args, code, p);
      var next := p + 1 + |Render(args[0])|;
      ParseFirstArg(args, code, p);
      ParseArgsOf(args[1..], code, next);
      ParseArgsStep(code, p, args[0], next, args[1..], next + |RenderArgs(args[1..])|);
      HeadAndTail(args);
    }
  }

  lemma {:induction false} ParseFirstArg(args: seq<Node>, code: string, p: nat)
    requires args != [] && Legal(args[0]) && StandsAt(RenderArgs(args), code, p)
    ensures ParseAny(code, p) == Read(args[0], p + 1 + |Render(args[0])|)
    decreases args, 0
  {
    ArgsStandInOrder(args, code, p);
    ParseAnyOf(args[0], code, p, p + 1);
  }

  lemma {:induction false} HeadAndTail(args: seq<Node>)
    requires args != []
    ensures [args[0]] + args[1..] == args
  {
  }

  lemma {:induction false} ParseNoArgs(code: string, p: nat)
    requires StandsAt(RenderArgs([]), code, p)
    ensures ParseArgs(code, p) == Read([], p + |RenderArgs([])|)
  {
    StandsAtParts(")", "", code, p);
    SkipWhileStopsAt(IsSeparator, code, p, p);
  }

  lemma {:induction false} ArgsStandInOrder(args: seq<Node>, code: string, p: nat)
    requires args != [] && StandsAt(RenderArgs(args), code, p)
    ensures var next := p + 1 + |Render(args[0])|;
            && |RenderArgs(args)| == 1 + |Render(args[0])| + |RenderArgs(args[1..])|
            && code[p] == ' ' && StandsAt(Render(args[0]), code, p + 1)
            && StandsAt(RenderArgs(args[1..]), code, next) && IsTerminator(code[next])
  {
    RenderedArgs(args);
    TextsStandInOrder(" ", Render(args[0]), RenderArgs(args[1..]), code, p);
  }

  lemma {:induction false} RenderedArgs(args: seq<Node>)
    requires args != []
    ensures RenderArgs(args) == " " + (Render(args[0]) + RenderArgs(args[1..]))
  {
  }

  lemma {:induction false} ParseArgsStep(code: string, p: nat, arg: Node, next: nat, rest: seq<Node>, end: nat)
    requires p <= |code| && ParseAny(code, p) == Read(arg, next) && ParseArgs(code, next) == Read(rest, end)
    ensures ParseArgs(code, p) == Read([arg] + rest, end)
  {
  }

  /** Parsing a rendered call gives back that call and the index just past it, whatever stands around it. */
  lemma {:induction false} ParseInvertsRender(call: Node, before: string, after: string)
    requires call.Funcall? && Legal(call)
    ensures ParseAny(before + Render(call) + after, |before|) == Read(call, |before| + |Render(call)|)
  {
    var code := before + Render(call) + after;
    assert code[|before|..|before| + |Render(call)|] == Render(call);
    ParseAnyOf(call, code, |before|, |before|);
  }

  /** So two legal calls with one rendering are one call. */
  lemma {:induction false} RenderIsInjective(a: Node, b: Node)
    requires a.Funcall? && Legal(a) && b.Funcall? && Legal(b)
    requires Render(a) == Render(b)
    ensures a == b
  {
    ParseInvertsRender(a, "", "");
    ParseInvertsRender(b, "", "");
  }

  /** Conversely, every call the parser returns, on any code whatever, is legal. */
  lemma {:induction false} ParsedCallIsLegal(code: string, start: nat)
    requires start < |code| && ParseFuncall(code, start).Read?
    ensures Legal(ParseFuncall(code, start).node)
    decreases |code| - start, 1
  {
    var name := ParseName(code, start + 1);
    assert LegalName(name.node);
    ParsedArgsAreLegal(code, name.next);
  }

  lemma {:induction false} ParsedLiteralIsLegal(code: string, i: nat)
    requires i < |code| && !IsSeparator(code[i]) && ParseLiteral(code, i).Read?
    ensures Legal(Literal(ParseLiteral(code, i).node))
  {
    if code[i] == '"' {
      ParsedStringIsString(code, i + 1, "");
    }
  }

  lemma {:induction false} ParsedStringIsString(code: string, i: nat, chars: string)
    requires i <= |code| && ParseString(code, i, chars).Read?
    ensures ParseString(code, i, chars).node.Str?
    decreases |code| - i
  {
    if i < |code| && code[i] == '\\' {
      ParsedStringIsString(code, i + 2, chars + [if code[i + 1] == 'n' then '\n' else code[i + 1]]);
    } else if i < |code| && code[i] != '"' {
      ParsedStringIsString(code, i + 1, chars + [code[i]]);
    }
  }

  lemma {:induction false} ParsedArgsAreLegal(code: string, start: nat)
    requires start <= |code| && ParseArgs(code, start).Read?
    ensures forall arg :: arg in ParseArgs(code, start).node ==> Legal(arg)
    decreases |code| - start, 2
  {
    var arg := ParseAny(code, start);
    if arg.Read? {
      var i := SkipWhile(IsSeparator, code, start);
      if code[i] == '(' {
        ParsedCallIsLegal(code, i);
      } else {
        ParsedLiteralIsLegal(code, i);
      }
      assert Legal(arg.node);
      ParsedArgsAreLegal(code, arg.next);
    }
  }

  /** Rendering what was parsed and parsing it again changes nothing: the rendering is a normal form of the code. */
  lemma {:induction false} RenderNormalises(code: string, start: nat)
    requires start < |code| && ParseFuncall(code, start).Read?
    ensures var call := ParseFuncall(code, start).node;
            ParseAny(Render(call), 0) == Read(call, |Render(call)|)
  {
    ParsedCallIsLegal(code, start);
    ParseOfRender(ParseFuncall(code, start).node);
  }

  lemma {:induction false} ParseOfRender(call: Node)
    requires call.Funcall? && Legal(call)
    ensures ParseAny(Render(call), 0) == Read(call, |Render(call)|)
  {
    ParseInvertsRender(call, "", "");
    NothingAround(Render(call));
  }

  lemma {:induction false} NothingAround(text: string)
    ensures "" + text + "" == text
  {
  }
}
