/** Substitution of `${VAR}` and `${VAR:-default}` in configuration text.

    The scanner is a loop over a peekable character stream with a second loop inside
    it.  Its specification is a grammar: a text is a list of segments, and `IsParse`
    says which lists are parses without mentioning scanning. */
module EnvSubst {
  import opened Wrappers

  datatype Segment =
    | Literal(c: char)
    | Placeholder(content: string)  // "${" content "}"
    | Unclosed(text: string)        // "${" text, running to the end of the input
  {
    function Source(): string {
      match this
      case Literal(c) => [c]
      case Placeholder(content) => "${" + content + "}"
      case Unclosed(text) => "${" + text
    }
  }

  function Sources(segs: seq<Segment>): string {
    if segs == [] then "" else segs[0].Source() + Sources(segs[1..])
  }

  // ------------------------------------------------------------- the grammar

  function Depth(s: string): int {
    if s == "" then 0
    else Depth(s[..|s| - 1]) + (match s[|s| - 1] case '{' => 1 case '}' => -1 case _ => 0)
  }

  /** No closing brace in `s` closes the placeholder that `s` is inside of. */
  ghost predicate StaysOpen(s: string) {
    forall k :: 0 <= k <= |s| ==> Depth(s[..k]) >= 0
  }

  predicate StartsWithBrace(s: string) { s != "" && s[0] == '{' }

  /** `seg` may begin a parse whose remaining input is `rest`. */
  ghost predicate ProperHead(seg: Segment, rest: string) {
    match seg
    case Literal(c) => c == '$' ==> !StartsWithBrace(rest)
    case Placeholder(content) => StaysOpen(content) && Depth(content) == 0
    case Unclosed(text) => StaysOpen(text) && rest == ""
  }

  ghost predicate IsParse(input: string, segs: seq<Segment>) {
    if segs == [] then input == ""
    else
      var source := segs[0].Source();
      && source <= input
      && ProperHead(segs[0], input[|source|..])
      && IsParse(input[|source|..], segs[1..])
  }

  lemma {:induction false} ParseCoversInput(input: string, segs: seq<Segment>)
    requires IsParse(input, segs)
    ensures Sources(segs) == input
  {
    if segs != [] {
      var source := segs[0].Source();
      ParseCoversInput(input[|source|..], segs[1..]);
      assert input == source + input[|source|..];
    }
  }

  /** A text that stays open does not pass a closing brace met at depth 0. */
  lemma NoCloseInside(text: string, k: nat)
    requires StaysOpen(text) && k < |text| && text[k] == '}'
    ensures Depth(text[..k]) != 0
  {
    assert text[..k + 1][..k] == text[..k];
    assert Depth(text[..k + 1]) >= 0;
  }

  /** A literal heads exactly the inputs that do not begin with `${`. */
  lemma LiteralHead(input: string, seg: Segment)
    requires seg.Source() <= input && ProperHead(seg, input[|seg.Source()|..])
    ensures input != "" && (seg.Literal? ==> seg.c == input[0])
    ensures seg.Literal? <==> !(input[0] == '$' && StartsWithBrace(input[1..]))
  {
    var source := seg.Source();
    if !seg.Literal? {
      assert source[0] == '$' && source[1] == '{';
    }
  }

  lemma SameHead(input: string, a: Segment, b: Segment)
    requires a.Source() <= input && ProperHead(a, input[|a.Source()|..])
    requires b.Source() <= input && ProperHead(b, input[|b.Source()|..])
    ensures a == b
  {
    LiteralHead(input, a);
    LiteralHead(input, b);
    if a.Literal? || b.Literal? {
    } else if a.Unclosed? && b.Unclosed? {
      assert input == a.Source() == b.Source();
      assert a.text == input[2..] == b.text;
    } else if a.Placeholder? {
      ClosedAgainst(input, a.content, b);
    } else {
      ClosedAgainst(input, b.content, a);
    }
  }

  lemma ClosedAgainst(input: string, content: string, b: Segment)
    requires ProperHead(Placeholder(content), "") && Placeholder(content).Source() <= input
    requires b.Source() <= input && ProperHead(b, input[|b.Source()|..]) && !b.Literal?
    ensures b == Placeholder(content)
  {
    var rest := input[2..];
    var body := if b.Placeholder? then b.content else b.text;
    BodyOf(input, Placeholder(content));
    BodyOf(input, b);
    if |content| < |body| {
      assert body[..|content|] == content;
      NoCloseInside(body, |content|);
    } else if |body| < |content| && b.Placeholder? {
      assert content[..|body|] == body;
      NoCloseInside(content, |body|);
    }
  }

  lemma BodyOf(input: string, seg: Segment)
    requires seg.Source() <= input && !seg.Literal?
    ensures |input| >= 2
    ensures seg.Placeholder? ==>
              |seg.content| < |input[2..]| && seg.content == input[2..][..|seg.content|]
                && input[2..][|seg.content|] == '}'
    ensures seg.Unclosed? ==> |seg.text| <= |input[2..]| && seg.text == input[2..][..|seg.text|]
  {
    var source := seg.Source();
    assert source[2..] <= input[2..] by { assert input == source + input[|source|..]; }
    if seg.Placeholder? {
      assert source[2..] == seg.content + "}";
      assert source[2..][|seg.content|] == '}';
    } else {
      assert source[2..] == seg.text;
    }
  }

  /** The grammar is unambiguous. */
  lemma {:induction false} ParseUnique(input: string, a: seq<Segment>, b: seq<Segment>)
    requires IsParse(input, a) && IsParse(input, b)
    ensures a == b
    decreases |a|
  {
    if a != [] && b != [] {
      SameHead(input, a[0], b[0]);
      ParseUnique(input[|a[0].Source()|..], a[1..], b[1..]);
      assert a == [a[0]] + a[1..] && b == [b[0]] + b[1..];
    }
  }

  // ------------------------------------------------------------- the parser

  /** Position of the brace that closes a placeholder whose content starts at 0,
      when `depth` nested braces are already open. */
  function ClosingBrace(s: string, depth: nat): (r: Option<nat>)
    ensures r.Some? ==> r.value < |s| && s[r.value] == '}'
  {
    if s == "" then None
    else if s[0] == '}' && depth == 0 then Some(0)
    else
      var next := if s[0] == '{' then depth + 1 else if s[0] == '}' then depth - 1 else depth;
      match ClosingBrace(s[1..], next)
      case None => None
      case Some(k) => Some(k + 1)
  }

  function Parse(input: string): seq<Segment>
    decreases |input|
  {
    if input == "" then []
    else if input[0] != '$' || !StartsWithBrace(input[1..]) then [Literal(input[0])] + Parse(input[1..])
    else match ClosingBrace(input[2..], 0)
      case None => [Unclosed(input[2..])]
      case Some(k) => [Placeholder(input[2..][..k])] + Parse(input[2..][k + 1..])
  }

  lemma {:induction false} DepthCons(c: char, s: string)
    ensures Depth([c] + s) == Depth([c]) + Depth(s)
    decreases |s|
  {
    if s == "" {
      assert [c] + s == [c];
    } else {
      var t := [c] + s;
      assert t[..|t| - 1] == [c] + s[..|s| - 1];
      DepthCons(c, s[..|s| - 1]);
    }
  }

  /** What the brace counter computes: the closing brace is where the text stops staying
      open, counted from a nesting of `depth`. */
  lemma {:induction false} ClosingBraceMeaning(s: string, depth: nat)
    ensures var r := ClosingBrace(s, depth);
            var body := if r.Some? then s[..r.value] else s;
            && (forall k :: 0 <= k <= |body| ==> depth + Depth(body[..k]) >= 0)
            && (r.Some? ==> depth + Depth(body) == 0)
    decreases |s|
  {
    var r := ClosingBrace(s, depth);
    if s != "" && !(s[0] == '}' && depth == 0) {
      var next := if s[0] == '{' then depth + 1 else if s[0] == '}' then depth - 1 else depth;
      ClosingBraceMeaning(s[1..], next);
      assert Depth([s[0]]) == next - depth by { assert [s[0]][..0] == ""; }
      var body := if r.Some? then s[..r.value] else s;
      var inner := if r.Some? then s[1..][..r.value - 1] else s[1..];
      assert body == [s[0]] + inner;
      OpenCons(s[0], inner, depth, next);
    }
  }

  lemma {:induction false} OpenCons(c: char, inner: string, depth: nat, next: nat)
    requires next == depth + Depth([c])
    requires forall k :: 0 <= k <= |inner| ==> next + Depth(inner[..k]) >= 0
    ensures forall k :: 0 <= k <= |[c] + inner| ==> depth + Depth(([c] + inner)[..k]) >= 0
    ensures depth + Depth([c] + inner) == next + Depth(inner)
  {
    forall k | 0 <= k <= |[c] + inner| ensures depth + Depth(([c] + inner)[..k]) >= 0 {
      if k > 0 {
        assert ([c] + inner)[..k] == [c] + inner[..k - 1];
        DepthCons(c, inner[..k - 1]);
      }
    }
    DepthCons(c, inner);
  }

  lemma {:induction false} ParseIsParse(input: string)
    ensures IsParse(input, Parse(input))
    decreases |input|
  {
    if input != "" {
      if input[0] != '$' || !StartsWithBrace(input[1..]) {
        ParseIsParse(input[1..]);
        assert Parse(input)[1..] == Parse(input[1..]);
      } else {
        var body := input[2..];
        ClosingBraceMeaning(body, 0);
        match ClosingBrace(body, 0)
        case None =>
          assert input == "${" + body;
        case Some(k) =>
          ParseIsParse(body[k + 1..]);
          PlaceholderHeads(body[..k], body[k + 1..], Parse(body[k + 1..]));
          PlaceholderText(input, k);
      }
    }
  }

  lemma PlaceholderText(input: string, k: nat)
    requires |input| >= 2 && input[0] == '$' && input[1] == '{' && k < |input[2..]| && input[2..][k] == '}'
    ensures input == Placeholder(input[2..][..k]).Source() + input[2..][k + 1..]
  {
    var body := input[2..];
    assert body == body[..k] + "}" + body[k + 1..];
    assert input == "${" + body;
  }

  lemma {:induction false} PlaceholderHeads(content: string, rest: string, tail: seq<Segment>)
    requires StaysOpen(content) && Depth(content) == 0 && IsParse(rest, tail)
    ensures IsParse(Placeholder(content).Source() + rest, [Placeholder(content)] + tail)
  {
    var segs := [Placeholder(content)] + tail;
    var source := segs[0].Source();
    assert (source + rest)[|source|..] == rest;
    assert segs[1..] == tail;
  }

  /** The parser computes the one parse the grammar admits. */
  lemma {:induction false} ParseExact(input: string, segs: seq<Segment>)
    ensures IsParse(input, segs) <==> segs == Parse(input)
  {
    ParseIsParse(input);
    if IsParse(input, segs) {
      ParseUnique(input, segs, Parse(input));
    }
  }

  // ------------------------------------------------------------ substitution

  type Env = map<string, string>

  predicate ColonDashAt(s: string, k: nat) {
    k + 1 < |s| && s[k] == ':' && s[k + 1] == '-'
  }

  function FindColonDash(s: string): (r: Option<nat>)
    ensures r.Some? ==> ColonDashAt(s, r.value)
    ensures forall k: nat :: ColonDashAt(s, k) ==> r.Some? && r.value <= k
  {
    if |s| < 2 then None
    else if ColonDashAt(s, 0) then Some(0)
    else
      assert forall k: nat :: ColonDashAt(s, k) ==> k > 0 && ColonDashAt(s[1..], k - 1);
      match FindColonDash(s[1..])
      case None => None
      case Some(k) => Some(k + 1)
  }

  /** Name and optional default, split at the first `:-`. */
  function ParseVarContent(content: string): (r: (string, Option<string>))
    ensures r.1.Some? ==> content == r.0 + ":-" + r.1.value
    ensures r.1.None? ==> content == r.0
    ensures forall k: nat :: ColonDashAt(content, k) ==> r.1.Some? && |r.0| <= k
  {
    match FindColonDash(content)
    case Some(k) => (content[..k], Some(content[k + 2..]))
    case None => (content, None)
  }

  /** The variable's value when it is set to something non-empty. */
  function Lookup(env: Env, name: string): Option<string> {
    if name in env && env[name] != "" then Some(env[name]) else None
  }

  /** The text a segment contributes, or the name of the variable it misses. */
  function Expand(seg: Segment, env: Env): Result<string, string> {
    if !seg.Placeholder? then Ok(seg.Source())
    else
      var (name, default) := ParseVarContent(seg.content);
      if name == "" then Ok(seg.Source())
      else match Lookup(env, name)
        case Some(value) => Ok(value)
        case None => if default.Some? then Ok(default.value) else Err(name)
  }

  function Prepend(text: string, r: Result<string, string>): Result<string, string> {
    if r.Ok? then Ok(text + r.value) else r
  }

  lemma PrependLaws(a: string, b: string, r: Result<string, string>)
    ensures Prepend("", r) == r
    ensures Prepend(a, Prepend(b, r)) == Prepend(a + b, r)
  {
    if r.Ok? {
      assert "" + r.value == r.value;
      assert a + (b + r.value) == a + b + r.value;
    }
  }

  function Render(segs: seq<Segment>, env: Env): Result<string, string> {
    if segs == [] then Ok("")
    else match Expand(segs[0], env)
      case Err(name) => Err(name)
      case Ok(text) => Prepend(text, Render(segs[1..], env))
  }

  function Expansions(segs: seq<Segment>, env: Env): string
    requires forall i :: 0 <= i < |segs| ==> Expand(segs[i], env).Ok?
  {
    if segs == [] then "" else Expand(segs[0], env).value + Expansions(segs[1..], env)
  }

  /** Substitution succeeds exactly when no segment misses a variable, and then yields each
      segment's own text in order, so substituted values are never scanned again. */
  lemma {:induction false} RenderOk(segs: seq<Segment>, env: Env)
    ensures Render(segs, env).Ok? <==> forall i :: 0 <= i < |segs| ==> Expand(segs[i], env).Ok?
    ensures Render(segs, env).Ok? ==> Render(segs, env).value == Expansions(segs, env)
  {
    if segs != [] {
      RenderOk(segs[1..], env);
      if Render(segs, env).Ok? {
        forall i | 0 <= i < |segs| ensures Expand(segs[i], env).Ok? {
          assert i > 0 ==> segs[i] == segs[1..][i - 1];
        }
      }
    }
  }

  /** The reported name is that of the leftmost segment that misses its variable. */
  lemma {:induction false} RenderErr(segs: seq<Segment>, env: Env, name: string)
    ensures Render(segs, env) == Err(name) <==>
            exists i :: && 0 <= i < |segs|
                        && Expand(segs[i], env) == Err(name)
                        && forall j :: 0 <= j < i ==> Expand(segs[j], env).Ok?
  {
    if segs != [] {
      var tail := segs[1..];
      RenderErr(tail, env, name);
      if Expand(segs[0], env).Ok? && Render(tail, env) == Err(name) {
        var i :| 0 <= i < |tail| && Expand(tail[i], env) == Err(name)
                 && forall j :: 0 <= j < i ==> Expand(tail[j], env).Ok?;
        assert segs[i + 1] == tail[i];
        forall j | 0 <= j < i + 1 ensures Expand(segs[j], env).Ok? {
          assert j > 0 ==> segs[j] == tail[j - 1];
        }
      }
      if i :| 0 <= i < |segs| && Expand(segs[i], env) == Err(name)
              && forall j :: 0 <= j < i ==> Expand(segs[j], env).Ok? {
        if i > 0 {
          assert tail[i - 1] == segs[i];
          forall j | 0 <= j < i - 1 ensures Expand(tail[j], env).Ok? {
            assert tail[j] == segs[j + 1];
          }
        }
      }
    }
  }

  /** A placeholder misses its variable exactly when its name is non-empty, the variable is
      unset or empty, and no default is written. */
  lemma ExpandMisses(seg: Segment, env: Env, name: string)
    ensures Expand(seg, env) == Err(name) <==>
            && seg == Placeholder(name)
            && name != ""
            && (name !in env || env[name] == "")
            && (forall k: nat :: !ColonDashAt(name, k))
  {
    if seg.Placeholder? {
      var (n, d) := ParseVarContent(seg.content);
      if d.Some? {
        assert ColonDashAt(seg.content, |n|);
      }
    }
  }

  /** `content` reads as this name with this default: the default is what follows the first
      `:-`, if there is one. */
  ghost predicate Reads(content: string, name: string, default: Option<string>) {
    match default
    case None => content == name && forall k: nat :: !ColonDashAt(content, k)
    case Some(text) => content == name + ":-" + text && forall k: nat :: ColonDashAt(content, k) ==> |name| <= k
  }

  /** The text that replaces a placeholder of this name and default. */
  ghost predicate Replaces(name: string, default: Option<string>, env: Env, text: string) {
    if name in env && env[name] != "" then text == env[name] else default == Some(text)
  }

  ghost predicate Contributes(seg: Segment, env: Env, text: string) {
    match seg
    case Placeholder(content) =>
      exists name, default :: Reads(content, name, default)
        && if name == "" then text == "${" + content + "}" else Replaces(name, default, env, text)
    case Literal(c) => text == [c]
    case Unclosed(rest) => text == "${" + rest
  }

  lemma ReadsOnce(content: string, name: string, default: Option<string>)
    ensures Reads(content, name, default) <==> ParseVarContent(content) == (name, default)
  {
    var (n, d) := ParseVarContent(content);
    if d.Some? { assert ColonDashAt(content, |n|); }
    if Reads(content, name, default) && default.Some? {
      assert ColonDashAt(content, |name|);
      assert content[..|name|] == name && content[|name| + 2..] == default.value;
      assert content[..|n|] == n && content[|n| + 2..] == d.value;
    }
  }

  /** What a segment contributes: a named placeholder the variable's value whenever it is set and
      non-empty, default or not, and else the default; any other segment its own source. */
  lemma ExpandExact(seg: Segment, env: Env, text: string)
    ensures Expand(seg, env) == Ok(text) <==> Contributes(seg, env, text)
  {
    if seg.Placeholder? {
      var (n, d) := ParseVarContent(seg.content);
      ReadsOnce(seg.content, n, d);
      forall name, default | Reads(seg.content, name, default) ensures name == n && default == d {
        ReadsOnce(seg.content, name, default);
      }
    }
  }

  // ------------------------------------------------------------- the scanner

  function Shift(r: Option<nat>, n: nat): Option<nat> {
    if r.Some? then Some(r.value + n) else None
  }

  /** Where the closing brace lies, seen from `n` characters into the content. */
  function ClosingFrom(rest: string, n: nat, depth: nat): Option<nat>
    requires n <= |rest|
  {
    Shift(ClosingBrace(rest[n..], depth), n)
  }

  lemma ClosingFromStep(rest: string, n: nat, depth: nat)
    requires n < |rest|
    ensures ClosingFrom(rest, n, depth) ==
            if rest[n] == '{' then ClosingFrom(rest, n + 1, depth + 1)
            else if rest[n] != '}' then ClosingFrom(rest, n + 1, depth)
            else if depth > 0 then ClosingFrom(rest, n + 1, depth - 1)
            else Some(n)
    ensures rest[..n] + [rest[n]] == rest[..n + 1]
  {
    assert rest[n..][1..] == rest[n + 1..];
  }

  /** Reads placeholder content off the front of the remaining stream. */
  method ScanContent(rest: string) returns (content: string, foundClosing: bool, consumed: nat)
    ensures var r := ClosingBrace(rest, 0);
            if r.Some? then foundClosing && content == rest[..r.value] && consumed == r.value + 1
            else !foundClosing && content == rest && consumed == |rest|
  {
    content, foundClosing, consumed := "", false, 0;
    var nestedDepth := 0;
    while consumed < |rest|
      invariant consumed <= |rest| && nestedDepth >= 0 && !foundClosing
      invariant content == rest[..consumed]
      invariant ClosingFrom(rest, 0, 0) == ClosingFrom(rest, consumed, nestedDepth)
    {
      var c := rest[consumed];
      ClosingFromStep(rest, consumed, nestedDepth);
      consumed := consumed + 1;
      if c == '{' {
        nestedDepth := nestedDepth + 1;
        content := content + [c];
      } else if c == '}' {
        if nestedDepth > 0 {
          nestedDepth := nestedDepth - 1;
          content := content + [c];
        } else {
          foundClosing := true;
          break;
        }
      } else {
        content := content + [c];
      }
    }
    assert rest[0..] == rest;
  }

  lemma {:induction false} RenderCons(before: string, segs: seq<Segment>, seg: Segment, env: Env)
    ensures Prepend(before, Render([seg] + segs, env)) ==
              var text := Expand(seg, env);
              if text.Err? then text else Prepend(before + text.value, Render(segs, env))
  {
    assert ([seg] + segs)[1..] == segs;
    if Expand(seg, env).Ok? {
      PrependLaws(before, Expand(seg, env).value, Render(segs, env));
    }
  }

  method SubstituteEnvVars(input: string, env: Env) returns (r: Result<string, string>)
    ensures r == Render(Parse(input), env)
    ensures forall segs :: IsParse(input, segs) ==> r == Render(segs, env)
  {
    forall segs | IsParse(input, segs) ensures segs == Parse(input) { ParseExact(input, segs); }
    var result := "";
    var i := 0;
    assert input[i..] == input;
    PrependLaws("", "", Render(Parse(input), env));
    while i < |input|
      invariant 0 <= i <= |input|
      invariant Render(Parse(input), env) == Prepend(result, Render(Parse(input[i..]), env))
      decreases |input| - i
    {
      var c := input[i];
      ghost var here := input[i..];
      ghost var before := result;
      assert here[1..] == input[i + 1..];
      i := i + 1;
      if c == '$' && i < |input| && input[i] == '{' {
        i := i + 1;
        assert here[2..] == input[i..];
        var content, foundClosing, consumed := ScanContent(input[i..]);
        i := i + consumed;
        if !foundClosing {
          assert Parse(here) == [Unclosed(content)];
          RenderCons(before, [], Unclosed(content), env);
          result := result + ("${" + content);
          assert Parse(input[i..]) == [];
          continue;
        }
        assert here[2..][consumed..] == input[i..];
        assert Parse(here) == [Placeholder(content)] + Parse(input[i..]);
        RenderCons(before, Parse(input[i..]), Placeholder(content), env);
        var (name, default) := ParseVarContent(content);
        if name == "" {
          result := result + ("${" + content + "}");
          continue;
        }
        if name in env && env[name] != "" {
          result := result + env[name];
        } else if default.Some? {
          result := result + default.value;
        } else {
          return Err(name);
        }
      } else {
        assert Parse(here) == [Literal(c)] + Parse(input[i..]);
        RenderCons(before, Parse(input[i..]), Literal(c), env);
        result := result + [c];
      }
    }
    assert Parse(input[i..]) == [];
    assert result + "" == result;
    return Ok(result);
  }

  // ---------------------------------------------------------- consequences

  /** No placeholder begins inside. */
  ghost predicate Plain(text: string) {
    forall i :: 0 <= i < |text| - 1 ==> text[i] == '$' ==> text[i + 1] != '{'
  }

  /** Text without `${` is returned unchanged. */
  lemma {:induction false} PlainTextUnchanged(input: string, env: Env)
    requires Plain(input)
    ensures Render(Parse(input), env) == Ok(input)
    decreases |input|
  {
    if input != "" {
      assert Plain(input[1..]) by {
        forall i | 0 <= i < |input[1..]| - 1 && input[1..][i] == '$' ensures input[1..][i + 1] != '{' {
          assert input[i + 1] == '$';
        }
      }
      PlainTextUnchanged(input[1..], env);
      RenderCons("", Parse(input[1..]), Literal(input[0]), env);
      PrependLaws("", "", Render(Parse(input), env));
      assert input == "" + [input[0]] + input[1..];
    }
  }

  /** Plain text in front of a placeholder is copied. */
  lemma {:induction false} PlainPrefix(before: string, rest: string, env: Env)
    requires Plain(before) && rest != "" && rest[0] == '$'
    ensures Render(Parse(before + rest), env) == Prepend(before, Render(Parse(rest), env))
    decreases |before|
  {
    if before == "" {
      assert before + rest == rest;
      PrependLaws("", "", Render(Parse(rest), env));
    } else {
      var input := before + rest;
      assert input[1..] == before[1..] + rest && input[0] == before[0];
      assert |before| > 1 ==> input[1] == before[1];
      assert Plain(before[1..]) by {
        forall i | 0 <= i < |before[1..]| - 1 && before[1..][i] == '$' ensures before[1..][i + 1] != '{' {
          assert before[i + 1] == '$';
        }
      }
      PlainPrefix(before[1..], rest, env);
      assert Parse(input) == [Literal(input[0])] + Parse(input[1..]);
      RenderCons("", Parse(input[1..]), Literal(input[0]), env);
      PrependLaws("", "", Render(Parse(input), env));
      PrependLaws([before[0]], before[1..], Render(Parse(rest), env));
      assert [before[0]] + before[1..] == before && "" + [before[0]] == [before[0]];
    }
  }

  lemma {:induction false} PlaceholderRenders(before: string, content: string, after: string, env: Env)
    requires Plain(before) && Plain(after) && StaysOpen(content) && Depth(content) == 0
    ensures var expanded := Expand(Placeholder(content), env);
            Render(Parse(before + ("${" + content + "}") + after), env) ==
            if expanded.Ok? then Ok(before + expanded.value + after) else expanded
  {
    hide Parse, Render, StaysOpen, Depth, Plain, Expand, IsParse;
    var source, expanded := "${" + content + "}", Expand(Placeholder(content), env);
    var rest := source + after;
    assert before + source + after == before + rest && rest[0] == '$';
    ParseExact(after, Parse(after));
    PlaceholderHeads(content, after, Parse(after));
    ParseExact(rest, [Placeholder(content)] + Parse(after));
    PlainPrefix(before, rest, env);
    RenderCons("", Parse(after), Placeholder(content), env);
    PrependLaws("", "", Render(Parse(rest), env));
    PlainTextUnchanged(after, env);
    if expanded.Ok? {
      assert "" + expanded.value == expanded.value;
      assert before + (expanded.value + after) == before + expanded.value + after;
    }
  }

  /** A text with one placeholder: it is replaced by what it contributes and the text around it
      is copied; the substitution fails exactly when it contributes nothing. */
  lemma {:induction false} OnePlaceholder(before: string, content: string, after: string, env: Env)
    requires Plain(before) && Plain(after) && StaysOpen(content) && Depth(content) == 0
    ensures var r := Render(Parse(before + ("${" + content + "}") + after), env);
            && (forall text :: Contributes(Placeholder(content), env, text) ==> r == Ok(before + text + after))
            && (r.Ok? ==> exists text :: Contributes(Placeholder(content), env, text))
            && (r.Err? ==> Reads(content, r.error, None))
  {
    hide Parse, Render, StaysOpen, Depth, Plain, Expand, Contributes;
    var expanded := Expand(Placeholder(content), env);
    PlaceholderRenders(before, content, after, env);
    forall text | Contributes(Placeholder(content), env, text) ensures expanded == Ok(text) {
      ExpandExact(Placeholder(content), env, text);
    }
    if expanded.Ok? {
      ExpandExact(Placeholder(content), env, expanded.value);
    } else {
      ExpandMisses(Placeholder(content), env, expanded.error);
    }
  }

  /** The two ways to name a variable, in a text around it: a value that is set and non-empty
      wins over the default; the default, which may hold balanced braces, stands in when it is
      unset or empty; without default the variable is reported. */
  lemma {:induction false} OneVariable(before: string, name: string, default: Option<string>, after: string, env: Env)
    requires Plain(before) && Plain(after) && name != "" && BraceFree(name)
    requires (forall k: nat :: !ColonDashAt(name, k)) && (default.Some? ==> Balanced(default.value))
    ensures var content := if default.Some? then name + ":-" + default.value else name;
            var r := Render(Parse(before + ("${" + content + "}") + after), env);
            if name in env && env[name] != "" then r == Ok(before + env[name] + after)
            else if default.Some? then r == Ok(before + default.value + after)
            else r == Err(name)
  {
    var content := if default.Some? then name + ":-" + default.value else name;
    assert Flat(content) by {
      BraceFreeIsFlat(name);
      if default.Some? {
        BraceFreeIsFlat(name + ":-");
        BalancedIsFlat(default.value);
        FlatAppend(name + ":-", default.value);
      }
    }
    assert Reads(content, name, default) by {
      forall k: nat | ColonDashAt(content, k) ensures default.Some? && |name| <= k {
        assert !ColonDashAt(name, k);
      }
    }
    OnePlaceholder(before, content, after, env);
    var text := if name in env && env[name] != "" then env[name] else if default.Some? then default.value else "";
    if Replaces(name, default, env, text) {
      assert Contributes(Placeholder(content), env, text);
    } else {
      forall text ensures !Contributes(Placeholder(content), env, text) {
        forall n, d | Reads(content, n, d) ensures n == name && d == default {
          ReadsOnce(content, n, d);
          ReadsOnce(content, name, default);
        }
      }
      assert Reads(content, name, None);
    }
  }

  predicate BraceFree(s: string) { '{' !in s && '}' !in s }

  /** Every brace has its partner. */
  ghost predicate Balanced(s: string)
    decreases |s|
  {
    || BraceFree(s)
    || exists head, inner, tail :: |inner| < |s| && |tail| < |s| && s == head + ("{" + inner + "}") + tail
                                  && BraceFree(head) && Balanced(inner) && Balanced(tail)
  }

  /** The text closes nothing around it and leaves nothing open. */
  ghost predicate Flat(s: string) { StaysOpen(s) && Depth(s) == 0 }

  lemma {:induction false} BraceFreeIsFlat(s: string)
    requires BraceFree(s)
    ensures Flat(s)
  {
    if s != "" {
      var n := |s| - 1;
      BraceFreeIsFlat(s[..n]);
      forall k | 0 <= k <= |s| ensures Depth(s[..k]) >= 0 {
        if k < |s| { assert s[..n][..k] == s[..k]; } else { assert s[..k] == s; }
      }
    }
  }

  lemma {:induction false} DepthAppend(a: string, b: string)
    ensures Depth(a + b) == Depth(a) + Depth(b)
    decreases |b|
  {
    if b == "" {
      assert a + b == a;
    } else {
      assert (a + b)[..|a + b| - 1] == a + b[..|b| - 1];
      DepthAppend(a, b[..|b| - 1]);
    }
  }

  lemma FlatAppend(a: string, b: string)
    requires Flat(a) && Flat(b)
    ensures Flat(a + b)
  {
    DepthAppend(a, b);
    forall k | 0 <= k <= |a + b| ensures Depth((a + b)[..k]) >= 0 {
      if k <= |a| {
        assert (a + b)[..k] == a[..k];
      } else {
        assert (a + b)[..k] == a + b[..k - |a|];
        DepthAppend(a, b[..k - |a|]);
      }
    }
  }

  lemma FlatWrap(s: string)
    requires Flat(s)
    ensures Flat("{" + s + "}")
  {
    var t := "{" + s + "}";
    DepthCons('{', s);
    assert Depth("{") == 1 by { assert "{"[..0] == ""; }
    assert t[..|t| - 1] == "{" + s;
    forall k | 0 <= k <= |t| ensures Depth(t[..k]) >= 0 {
      if 0 < k < |t| {
        assert t[..k] == "{" + s[..k - 1];
        DepthCons('{', s[..k - 1]);
      } else if k == |t| {
        assert t[..k] == t;
      }
    }
  }

  lemma {:induction false} BalancedIsFlat(s: string)
    requires Balanced(s)
    ensures Flat(s)
    decreases |s|
  {
    hide Flat, BraceFree;
    if BraceFree(s) {
      BraceFreeIsFlat(s);
    } else {
      var head, inner, tail :| |inner| < |s| && |tail| < |s| && s == head + ("{" + inner + "}") + tail
                              && BraceFree(head) && Balanced(inner) && Balanced(tail);
      BraceFreeIsFlat(head);
      BalancedIsFlat(inner);
      FlatWrap(inner);
      BalancedIsFlat(tail);
      FlatAppend(head, "{" + inner + "}");
      FlatAppend(head + ("{" + inner + "}"), tail);
    }
  }
}
