/**
 The Bloks script syntax of pkg/messagix/bloks/script.go: the three Parse functions, which walk byte indices
 of one code string. A code string is its bytes, one char each.

 Every Parse function is a method that follows the source's loops; beside it stands the function it computes,
 over which the theorems of BloksScriptTheorems are proved.
 */
module BloksScript {
  import opened Common
  import opened Decimal

  datatype Value = Null | Bool(b: bool) | Int(i: int) | Str(s: string)

  datatype Node =
    | Literal(value: Value)
    | Funcall(fn: string, args: seq<Node>)

  datatype Error =
    | EndOfFuncall
    | EofAtToplevel
    | BadFunctionName
    | UnexpectedInFunctionName
    | EofInFunctionName
    | BadInteger
    | UnexpectedInNumber
    | BackslashAtEof
    | UnterminatedString
    | UnknownChar
    | FloatLiteral    // stands for the whole floating-point branch
    | UnicodeEscape   // stands for the whole \u branch

  /** Where parsing stopped, and either the node read or the reason there is none. */
  datatype Parsed<+T> =
    | Read(node: T, next: nat)
    | Failed(error: Error, at: nat)

  predicate IsSeparator(c: char) {
    c == '\t' || c == ' ' || c == ','
  }

  predicate IsNameChar(c: char) {
    'a' <= c <= 'z' || 'A' <= c <= 'Z' || '0' <= c <= '9' || c == '.' || c == '_'
  }

  /** The characters that may follow a number or a function name; a tab is not one of them. */
  predicate IsTerminator(c: char) {
    c == ' ' || c == '(' || c == ')' || c == ','
  }

  predicate IsNumberChar(c: char) {
    IsDigit(c) || c == '-' || c == '.'
  }

  /** The first index from `i` on whose character is not in the class, or the end of the code. */
  function SkipWhile(inClass: char -> bool, code: string, i: nat): (j: nat)
    requires i <= |code|
    ensures i <= j <= |code|
    ensures forall k :: i <= k < j ==> inClass(code[k])
    ensures j < |code| ==> !inClass(code[j])
    decreases |code| - i
  {
    if i < |code| && inClass(code[i]) then SkipWhile(inClass, code, i + 1) else i
  }

  /** Reads one argument; on a closing parenthesis fails with EndOfFuncall at its index. */
  function ParseAny(code: string, start: nat): (r: Parsed<Node>)
    requires start <= |code|
    ensures r.Read? ==> start < r.next <= |code|
    ensures r.Failed? && r.error.EndOfFuncall? ==> start <= r.at < |code| && code[r.at] == ')'
    decreases |code| - start, 2
  {
    var i := SkipWhile(IsSeparator, code, start);
    if i == |code| then Failed(EofAtToplevel, |code|)
    else if code[i] == '(' then ParseFuncall(code, i)
    else if code[i] == ')' then Failed(EndOfFuncall, i)
    else match ParseLiteral(code, i)
      case Read(value, next) => Read(Literal(value), next)
      case Failed(error, at) => Failed(error, at)
  }

  function ParseFuncall(code: string, start: nat): (r: Parsed<Node>)
    requires start < |code|
    ensures r.Read? ==> start < r.next <= |code|
    ensures r.Failed? ==> !r.error.EndOfFuncall?
    decreases |code| - start, 1
  {
    match ParseName(code, start + 1)
    case Failed(error, at) => Failed(error, at)
    case Read(fn, next) =>
      match ParseArgs(code, next)
      case Failed(error, at) => Failed(error, at)
      case Read(args, close) => Read(Funcall(fn, args), close)
  }

  /** The function name: separators, then name characters, then a terminator that is left unread. */
  function ParseName(code: string, start: nat): (r: Parsed<string>)
    requires start <= |code|
    ensures r.Read? ==> start < r.next < |code|
    ensures r.Failed? ==> !r.error.EndOfFuncall?
  {
    var i := SkipWhile(IsSeparator, code, start);
    // When only separators are left, the source keeps its start index where it was.
    var first := if i < |code| then i else start;
    var end := SkipWhile(IsNameChar, code, first);
    if end == |code| then Failed(EofInFunctionName, |code|)
    else if !IsTerminator(code[end]) then Failed(UnexpectedInFunctionName, end)
    else if end == first then Failed(BadFunctionName, end)
    else Read(code[first..end], end)
  }

  function ParseArgs(code: string, start: nat): (r: Parsed<seq<Node>>)
    requires start <= |code|
    ensures r.Read? ==> start < r.next <= |code|
    ensures r.Failed? ==> !r.error.EndOfFuncall?
    decreases |code| - start, 3
  {
    match ParseAny(code, start)
    case Failed(error, at) =>
      if error.EndOfFuncall? then Read([], at + 1) else Failed(error, at)
    case Read(arg, next) =>
      Prepend([arg], ParseArgs(code, next))
  }

  /** The arguments of a call whose first ones are already read. */
  function Prepend(front: seq<Node>, r: Parsed<seq<Node>>): Parsed<seq<Node>> {
    match r
    case Failed(error, at) => Failed(error, at)
    case Read(args, next) => Read(front + args, next)
  }

  lemma {:induction false} PrependNothing(r: Parsed<seq<Node>>)
    ensures Prepend([], r) == r
  {
    if r.Read? {
      assert [] + r.node == r.node;
    }
  }

  lemma {:induction false} PrependTwice(front: seq<Node>, arg: Node, r: Parsed<seq<Node>>)
    ensures Prepend(front, Prepend([arg], r)) == Prepend(front + [arg], r)
  {
    if r.Read? {
      assert front + ([arg] + r.node) == front + [arg] + r.node;
    }
  }

  predicate HasWord(code: string, start: nat, word: string) {
    start + |word| < |code| && code[start..start + |word|] == word
  }

  /** A literal. A word needs one more character behind it, and so does a number. */
  function ParseLiteral(code: string, start: nat): (r: Parsed<Value>)
    requires start < |code| && !IsSeparator(code[start])
    ensures r.Read? ==> start < r.next <= |code|
    ensures r.Failed? ==> !r.error.EndOfFuncall?
  {
    var end := SkipWhile(IsNumberChar, code, start);
    if start < end < |code| then ParseNumber(code, start, end)
    else if code[start] == '"' then ParseString(code, start + 1, "")
    else if HasWord(code, start, "null") then Read(Null, start + 4)
    else if HasWord(code, start, "true") then Read(Bool(true), start + 4)
    else if HasWord(code, start, "false") then Read(Bool(false), start + 5)
    else Failed(UnknownChar, start)
  }

  function ParseNumber(code: string, start: nat, end: nat): (r: Parsed<Value>)
    requires start < end < |code|
    ensures r.Read? ==> r.next == end
    ensures r.Failed? ==> !r.error.EndOfFuncall?
  {
    if !IsTerminator(code[end]) then Failed(UnexpectedInNumber, end)
    else if '.' in code[start..end] then Failed(FloatLiteral, end)
    else match ParseInt(code[start..end])
      case None => Failed(BadInteger, end)
      case Some(i) => Read(Int(i), end)
  }

  /** The rest of a string literal, behind the characters already taken. */
  function ParseString(code: string, idx: nat, chars: string): (r: Parsed<Value>)
    requires idx <= |code|
    ensures r.Read? ==> idx < r.next <= |code|
    ensures r.Failed? ==> !r.error.EndOfFuncall?
    decreases |code| - idx
  {
    if idx == |code| then Failed(UnterminatedString, idx)
    else if code[idx] == '\\' then
      if idx + 1 == |code| then Failed(BackslashAtEof, |code|)
      else if code[idx + 1] == 'u' then Failed(UnicodeEscape, idx)
      else ParseString(code, idx + 2, chars + [if code[idx + 1] == 'n' then '\n' else code[idx + 1]])
    else if code[idx] == '"' then Read(Str(chars), idx + 1)
    else ParseString(code, idx + 1, chars + [code[idx]])
  }

  // ----- the source's loops -----

  method ParseAnyNode(code: string, start: nat) returns (r: Parsed<Node>)
    requires start <= |code|
    ensures r == ParseAny(code, start)
    decreases |code| - start, 2
  {
    var idx := start;
    while idx < |code|
      invariant start <= idx <= |code|
      invariant SkipWhile(IsSeparator, code, idx) == SkipWhile(IsSeparator, code, start)
    {
      match code[idx] {
        case '\t' | ' ' | ',' =>
          idx := idx + 1;
        case '(' =>
          r := ParseFuncallNode(code, idx);
          return;
        case ')' =>
          return Failed(EndOfFuncall, idx);
        case _ =>
          var lit := ParseLiteralNode(code, idx);
          match lit {
            case Read(value, next) => return Read(Literal(value), next);
            case Failed(error, at) => return Failed(error, at);
          }
      }
    }
    return Failed(EofAtToplevel, |code|);
  }

  /** The two loops at the head of the source's funcall parser. */
  method ParseNameText(code: string, from: nat) returns (r: Parsed<string>)
    requires from <= |code|
    ensures r == ParseName(code, from)
  {
    var start, idx := from, from;
    while idx < |code| && IsSeparator(code[idx])
      invariant from <= idx <= |code|
      invariant SkipWhile(IsSeparator, code, idx) == SkipWhile(IsSeparator, code, from)
    {
      idx := idx + 1;
    }
    if idx < |code| {
      start := idx;
    }
    var end := start;
    idx := start;
    while idx < |code|
      invariant start <= idx <= |code| && end == start
      invariant SkipWhile(IsNameChar, code, idx) == SkipWhile(IsNameChar, code, start)
    {
      if !IsNameChar(code[idx]) {
        if IsTerminator(code[idx]) {
          if idx == start {
            return Failed(BadFunctionName, idx);
          }
          end := idx;
          break;
        }
        return Failed(UnexpectedInFunctionName, idx);
      }
      idx := idx + 1;
    }
    if start == end {
      return Failed(EofInFunctionName, |code|);
    }
    return Read(code[start..end], end);
  }

  method ParseFuncallNode(code: string, open: nat) returns (r: Parsed<Node>)
    requires open < |code|
    ensures r == ParseFuncall(code, open)
    decreases |code| - open, 1
  {
    var name := ParseNameText(code, open + 1);
    if name.Failed? {
      return Failed(name.error, name.at);
    }
    var fn, end := name.node, name.next;
    var args := [];
    var next := end;
    PrependNothing(ParseArgs(code, end));
    while true
      invariant end <= next <= |code|
      invariant Prepend(args, ParseArgs(code, next)) == ParseArgs(code, end)
      decreases |code| - next
    {
      var arg := ParseAnyNode(code, next);
      match arg {
        case Failed(error, at) =>
          if error.EndOfFuncall? {
            assert args + [] == args;
            return Read(Funcall(fn, args), at + 1);
          }
          return Failed(error, at);
        case Read(node, after) =>
          PrependTwice(args, node, ParseArgs(code, after));
          args := args + [node];
          next := after;
      }
    }
  }

  method ParseLiteralNode(code: string, start: nat) returns (r: Parsed<Value>)
    requires start < |code| && !IsSeparator(code[start])
    ensures r == ParseLiteral(code, start)
  {
    var decimal := false;
    var idx := start;
    while idx < |code|
      invariant start <= idx <= |code|
      invariant SkipWhile(IsNumberChar, code, idx) == SkipWhile(IsNumberChar, code, start)
      invariant decimal == ('.' in code[start..idx])
    {
      if !IsNumberChar(code[idx]) {
        break;
      }
      assert code[start..idx + 1] == code[start..idx] + [code[idx]];
      decimal := decimal || code[idx] == '.';
      idx := idx + 1;
    }
    if start < idx < |code| {
      if !IsTerminator(code[idx]) {
        return Failed(UnexpectedInNumber, idx);
      }
      if decimal {
        return Failed(FloatLiteral, idx);
      }
      match ParseInt(code[start..idx]) {
        case None => return Failed(BadInteger, idx);
        case Some(i) => return Read(Int(i), idx);
      }
    }
    if code[start] == '"' {
      r := ParseStringBody(code, start + 1);
      return;
    }
    if HasWord(code, start, "null") { return Read(Null, start + 4); }
    if HasWord(code, start, "true") { return Read(Bool(true), start + 4); }
    if HasWord(code, start, "false") { return Read(Bool(false), start + 5); }
    return Failed(UnknownChar, start);
  }

  method ParseStringBody(code: string, start: nat) returns (r: Parsed<Value>)
    requires start <= |code|
    ensures r == ParseString(code, start, "")
  {
    var idx := start;
    var chars := "";
    while idx < |code|
      invariant start <= idx <= |code|
      invariant ParseString(code, idx, chars) == ParseString(code, start, "")
    {
      match code[idx] {
        case '\\' =>
          if idx + 1 >= |code| {
            return Failed(BackslashAtEof, |code|);
          }
          match code[idx + 1] {
            case 'n' => chars := chars + ['\n'];
            case 'u' => return Failed(UnicodeEscape, idx);
            case c => chars := chars + [c];
          }
          idx := idx + 2;
        case '"' =>
          return Read(Str(chars), idx + 1);
        case c =>
          chars := chars + [c];
          idx := idx + 1;
      }
    }
    return Failed(UnterminatedString, idx);
  }
}
