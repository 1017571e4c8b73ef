/** The SQL template processor of handlers/sql_processor.go.

    `ProcessSQL` works in two passes. Pass 1 replaces every `{{...}}` block
    (leftmost first, not overlapping, never spanning a newline) by the text it
    resolves to; pass 2 replaces every `:key` of every parameter by the
    parameter's literal. `Render` is the specification of the whole
    transformation; the methods below compute it the way the Go code does. */
module SqlProcessor {
  import opened Wrappers
  import opened Strings
  import opened Decimal

  /** A parameter value as the JSON request body delivers it. Numbers are
      modelled as integers. */
  datatype Value = Str(s: string) | Int(n: int) | Bool(b: bool) | Null

  datatype Param = Param(key: string, value: Value)

  /** The parameter map, listed in the order in which `range` visits it. */
  type Params = seq<Param>

  function Keys(ps: Params): set<string> {
    set i | 0 <= i < |ps| :: ps[i].key
  }

  /** A Go map holds each key once. */
  predicate DistinctKeys(ps: Params) {
    forall i, j :: 0 <= i < j < |ps| ==> ps[i].key != ps[j].key
  }

  // ---------------------------------------------------------------------
  // Rendering of values

  /** `fmt.Sprintf("%v", v)`. */
  function DefaultFormat(v: Value): string {
    match v
    case Str(s) => s
    case Int(n) => FormatInt(n)
    case Bool(b) => if b then "true" else "false"
    case Null => "<nil>"
  }

  /** What a placeholder is replaced with: a string in double quotes, with
      no escaping of the quotes it may itself hold; any other value in its
      `%v` form. */
  function Literal(v: Value): string {
    if v.Str? then "\"" + v.s + "\"" else DefaultFormat(v)
  }

  /** Reads a literal back; the inverse of `Literal`. */
  function ReadLiteral(t: string): Option<Value> {
    if |t| >= 2 && t[0] == '"' && t[|t| - 1] == '"' then Some(Str(t[1..|t| - 1]))
    else if t == "true" then Some(Bool(true))
    else if t == "false" then Some(Bool(false))
    else if t == "<nil>" then Some(Null)
    else if |t| >= 1 && t[0] == '-' && AllDigits(t[1..]) then Some(Int(ParseInt(t)))
    else if |t| >= 1 && t[0] != '-' && AllDigits(t) then Some(Int(ParseInt(t)))
    else None
  }

  /** Different values never render to the same literal: the literal
      determines the value it came from. */
  lemma ReadLiteralOfLiteral(v: Value)
    ensures ReadLiteral(Literal(v)) == Some(v)
  {
    match v
    case Str(s) =>
      var t := Literal(v);
      assert t[1..|t| - 1] == s;
    case Int(n) =>
      var t := FormatInt(n);
      ParseFormatInt(n);
      assert IsDigit(t[0]) || t[0] == '-';
      assert t != "true" && t != "false" && t != "<nil>" by {
        assert !IsDigit('t') && !IsDigit('f') && !IsDigit('<');
      }
    case Bool(b) =>
    case Null =>
  }

  // ---------------------------------------------------------------------
  // stripQuotes

  /** `stripQuotes`: removes one layer of matching single or double quotes. */
  function StripQuotes(s: string): (r: string)
    ensures |s| >= 2 && s[0] == s[|s| - 1] && (s[0] == '\'' || s[0] == '"')
            ==> r == s[1..|s| - 1]
    ensures !(|s| >= 2 && s[0] == s[|s| - 1] && (s[0] == '\'' || s[0] == '"'))
            ==> r == s
  {
    if |s| >= 2 && s[0] == '\'' && s[|s| - 1] == '\'' then s[1..|s| - 1]
    else if |s| >= 2 && s[0] == '"' && s[|s| - 1] == '"' then s[1..|s| - 1]
    else s
  }

  /** Quoting a text and stripping the quotes gives the text back. */
  lemma StripQuotesOfQuoted(q: char, x: string)
    requires q == '\'' || q == '"'
    ensures StripQuotes([q] + x + [q]) == x
  {
    var s := [q] + x + [q];
    assert s[1..|s| - 1] == x;
  }

  // ---------------------------------------------------------------------
  // Placeholders: the regular expression `:([a-zA-Z0-9_]+)`

  predicate IsNameChar(c: char) {
    ('a' <= c <= 'z') || ('A' <= c <= 'Z') || ('0' <= c <= '9') || c == '_'
  }

  predicate IsName(n: string) {
    n != [] && forall i :: 0 <= i < |n| ==> IsNameChar(n[i])
  }

  /** Length of the longest prefix of `s` made of name characters. */
  function NameLength(s: string): (n: nat)
    ensures n <= |s|
    ensures forall i :: 0 <= i < n ==> IsNameChar(s[i])
    ensures n < |s| ==> !IsNameChar(s[n])
  {
    if s != [] && IsNameChar(s[0]) then 1 + NameLength(s[1..]) else 0
  }

  /** A placeholder starts at index `i` of `s`. */
  predicate PlaceholderAt(s: string, i: int) {
    0 <= i < |s| - 1 && s[i] == ':' && IsNameChar(s[i + 1])
  }

  /** The names the regular expression captures in `s`, leftmost first and
      each as long as possible. Every captured name is a name that follows a
      colon somewhere in `s`. */
  function PlaceholderNames(s: string): (names: seq<string>)
    ensures forall k :: 0 <= k < |names| ==> IsName(names[k]) && Contains(s, ":" + names[k])
    decreases |s|
  {
    if |s| < 2 then []
    else if s[0] == ':' && IsNameChar(s[1]) then
      var n := NameLength(s[1..]);
      var name := s[1..1 + n];
      var rest := PlaceholderNames(s[1 + n..]);
      assert OccursAt(s, ":" + name, 0) by {
        assert s[0..|":" + name|] == ":" + name;
      }
      forall k | 0 <= k < |rest| ensures Contains(s, ":" + rest[k]) {
        ContainsInSuffix(s, 1 + n, ":" + rest[k]);
      }
      [name] + rest
    else
      var rest := PlaceholderNames(s[1..]);
      forall k | 0 <= k < |rest| ensures Contains(s, ":" + rest[k]) {
        ContainsInSuffix(s, 1, ":" + rest[k]);
      }
      rest
  }

  /** The scan finds a name exactly when some colon is followed by a name
      character. */
  lemma {:induction false} PlaceholderNamesEmpty(s: string)
    ensures PlaceholderNames(s) == [] <==> forall i :: !PlaceholderAt(s, i)
    decreases |s|
  {
    if |s| >= 2 && !(s[0] == ':' && IsNameChar(s[1])) {
      PlaceholderNamesEmpty(s[1..]);
      forall i | PlaceholderAt(s[1..], i) ensures PlaceholderAt(s, i + 1) { }
      forall i | PlaceholderAt(s, i) && i > 0 ensures PlaceholderAt(s[1..], i - 1) { }
    } else if |s| >= 2 {
      assert PlaceholderAt(s, 0);
    }
  }

  /** Text without a colon contributes no names. */
  lemma {:induction false} PlaceholderNamesSkip(a: string, b: string)
    requires ':' !in a
    ensures PlaceholderNames(a + b) == PlaceholderNames(b)
    decreases |a|
  {
    if a != [] {
      var s := a + b;
      assert s[0] == a[0] && s[1..] == a[1..] + b;
      PlaceholderNamesSkip(a[1..], b);
      if |s| < 2 {
        assert b == [];
      }
    } else {
      assert a + b == b;
    }
  }

  lemma {:induction false} NameLengthOf(n: string, b: string)
    requires forall i :: 0 <= i < |n| ==> IsNameChar(n[i])
    requires b == [] || !IsNameChar(b[0])
    ensures NameLength(n + b) == |n|
    decreases |n|
  {
    if n != [] {
      assert (n + b)[1..] == n[1..] + b;
      NameLengthOf(n[1..], b);
    } else {
      assert n + b == b;
    }
  }

  /** A colon followed by a whole name contributes that name. */
  lemma PlaceholderNamesFront(n: string, b: string)
    requires IsName(n)
    requires b == [] || !IsNameChar(b[0])
    ensures PlaceholderNames(":" + n + b) == [n] + PlaceholderNames(b)
  {
    var s := ":" + n + b;
    assert s[1..] == n + b;
    NameLengthOf(n, b);
    assert s[1..1 + |n|] == n;
    assert s[1 + |n|..] == b;
  }

  // ---------------------------------------------------------------------
  // Comment removal, as corrected and as written

  /** Removes one wrapping comment (an opening slash-star marker at the
      front and a closing star-slash marker at the end), provided the two
      markers do not overlap. */
  function Uncomment(c: string): string {
    if |c| >= 4 && HasPrefix(c, "/*") && HasSuffix(c, "*/") then c[2..|c| - 2] else c
  }

  /** The comment removal as the source writes it: the markers are tested
      independently, so for the three-character text slash, star, slash both
      tests pass and the slice [2:1] makes Go panic, modelled as `None`. */
  function UncommentAsWritten(c: string): Option<string> {
    if HasPrefix(c, "/*") && HasSuffix(c, "*/") then
      if 2 <= |c| - 2 then Some(c[2..|c| - 2]) else None
    else Some(c)
  }

  /** A wrapping comment is removed, whatever it holds. */
  lemma UncommentWrapped(x: string)
    ensures Uncomment("/*" + x + "*/") == x
  {
    var c := "/*" + x + "*/";
    assert c[..2] == "/*" && c[|c| - 2..] == "*/";
    assert c[2..|c| - 2] == x;
  }

  /** A text not wrapped in a comment is left as it is. */
  lemma UncommentUnwrapped(c: string)
    requires !(HasPrefix(c, "/*") && HasSuffix(c, "*/"))
    ensures Uncomment(c) == c
  {
  }

  /** The source's comment removal panics on exactly one input, the
      three-character text slash, star, slash, and agrees with `Uncomment`
      everywhere else. */
  lemma UncommentAsWrittenAgrees(c: string)
    ensures UncommentAsWritten(c) == if c == "/*/" then None else Some(Uncomment(c))
  {
    if c == "/*/" {
      assert c[..2] == "/*" && c[1..] == "*/";
    }
    if HasPrefix(c, "/*") && HasSuffix(c, "*/") && |c| < 4 {
      ShortComment(c);
    }
  }

  /** The only text shorter than four characters that starts with the
      opening and ends with the closing marker is slash, star, slash. */
  lemma ShortComment(c: string)
    requires HasPrefix(c, "/*") && HasSuffix(c, "*/") && |c| < 4
    ensures c == "/*/"
  {
    assert c[0] == c[..2][0] == '/' && c[1] == c[..2][1] == '*';
    assert c[|c| - 1] == c[|c| - 2..][1] == '/';
    assert c[|c| - 2] == c[|c| - 2..][0] == '*';
    assert |c| == 3;
    assert c == [c[0], c[1], c[2]];
  }

  // ---------------------------------------------------------------------
  // Resolution of one block

  /** Every captured name is a key of `ps` (vacuously so when there is none). */
  predicate AllPresent(names: seq<string>, ps: Params) {
    forall k :: 0 <= k < |names| ==> names[k] in Keys(ps)
  }

  /** The text a block with body `content` is replaced with: the main
      fragment (before the first `else`), trimmed and uncommented, when
      every placeholder it names is a parameter; otherwise the fragment
      between the first and the second `else`, trimmed and unquoted, or
      nothing when there is no `else`. */
  function BlockValue(content: string, ps: Params): string {
    var parts := Split(content, "else");
    var mainBlock := TrimSpace(parts[0]);
    if AllPresent(PlaceholderNames(mainBlock), ps) then TrimSpace(Uncomment(TrimSpace(mainBlock)))
    else if |parts| > 1 then StripQuotes(TrimSpace(parts[1]))
    else ""
  }

  /** `BlockValue` with the comment removal as written; `None` is a panic. */
  function BlockValueAsWritten(content: string, ps: Params): Option<string> {
    var parts := Split(content, "else");
    var mainBlock := TrimSpace(parts[0]);
    if AllPresent(PlaceholderNames(mainBlock), ps) then
      match UncommentAsWritten(TrimSpace(mainBlock))
      case Some(cleaned) => Some(TrimSpace(cleaned))
      case None => None
    else if |parts| > 1 then Some(StripQuotes(TrimSpace(parts[1])))
    else Some("")
  }

  /** Slash, star, slash holds no `else`, no white space at its ends and no
      placeholder, and it passes both marker tests. */
  lemma SlashStarSlash()
    ensures Split("/*/", "else") == ["/*/"]
    ensures TrimSpace("/*/") == "/*/"
    ensures PlaceholderNames("/*/") == []
    ensures HasPrefix("/*/", "/*") && HasSuffix("/*/", "*/")
  {
    var body := "/*/";
    TrimSpaceMargins([], body, []);
    assert [] + body + [] == body;
    PlaceholderNamesSkip(body, []);
    assert body + [] == body;
    assert body[..2] == "/*" && body[|body| - 2..] == "*/";
  }

  /** A block whose body is slash, star, slash makes the source panic. */
  lemma BlockAsWrittenPanics(ps: Params)
    ensures BlockValueAsWritten("/*/", ps) == None
  {
    SlashStarSlash();
    assert UncommentAsWritten("/*/") == None;
  }

  /** Where the source does not panic it yields what `BlockValue` yields. */
  lemma BlockAsWrittenAgrees(content: string, ps: Params)
    ensures BlockValueAsWritten(content, ps) == None
            || BlockValueAsWritten(content, ps) == Some(BlockValue(content, ps))
  {
    UncommentAsWrittenAgrees(TrimSpace(TrimSpace(Split(content, "else")[0])));
  }

  /** Method form of the flag loop at the heart of the block callback:
      stops at the first name that is not a parameter. */
  method HasAllParams(names: seq<string>, ps: Params) returns (all: bool)
    ensures all == AllPresent(names, ps)
  {
    all := true;
    var i := 0;
    while i < |names|
      invariant 0 <= i <= |names|
      invariant forall k :: 0 <= k < i ==> names[k] in Keys(ps)
    {
      if names[i] !in Keys(ps) {
        all := false;
        break;
      }
      i := i + 1;
    }
  }

  /** The replacement callback of pass 1, applied to a block body. */
  method ResolveBlock(content: string, ps: Params) returns (r: string)
    ensures r == BlockValue(content, ps)
  {
    var parts := Split(content, "else");
    var mainBlock := TrimSpace(parts[0]);
    var elseBlock := "";
    if |parts| > 1 {
      elseBlock := StripQuotes(TrimSpace(parts[1]));
    }
    var names := PlaceholderNames(mainBlock);
    var hasAllParams := HasAllParams(names, ps);
    if hasAllParams {
      r := TrimSpace(Uncomment(TrimSpace(mainBlock)));
    } else {
      r := elseBlock;
    }
  }

  // ---------------------------------------------------------------------
  // Finding the blocks: the regular expression `\{\{(.*?)\}\}`

  /** `}}` starts at index `j` of `s`. */
  predicate IsCloseAt(s: string, j: int) {
    0 <= j < |s| - 1 && s[j] == '}' && s[j + 1] == '}'
  }

  /** The first `}}` at or after `k`, unless a newline comes before it
      (`.` does not match a newline). */
  function CloseFrom(s: string, k: nat): (r: Option<nat>)
    ensures r.Some? ==> k <= r.value && IsCloseAt(s, r.value)
    ensures r.Some? ==> forall i :: k <= i < r.value ==> s[i] != '\n'
    ensures r.Some? ==> forall i :: k <= i < r.value ==> !IsCloseAt(s, i)
    ensures r.None? ==> forall j :: k <= j && IsCloseAt(s, j) ==> exists i :: k <= i < j && s[i] == '\n'
    decreases |s| - k
  {
    if k + 1 >= |s| then None
    else if s[k] == '\n' then None
    else if s[k] == '}' && s[k + 1] == '}' then Some(k)
    else CloseFrom(s, k + 1)
  }

  /** The index of the closing `}}` of a block that opens at the front of
      `s`, if one does. */
  function BlockAt(s: string): Option<nat> {
    if |s| >= 2 && s[0] == '{' && s[1] == '{' then CloseFrom(s, 2) else None
  }

  /** `ReplaceAllStringFunc` with the block regular expression: every
      block is replaced by what `callback` makes of its body, the text
      outside blocks is kept. */
  function ReplaceBlocksWith(s: string, callback: string -> string): string
    decreases |s|
  {
    if s == [] then []
    else match BlockAt(s)
      case Some(j) => callback(s[2..j]) + ReplaceBlocksWith(s[j + 2..], callback)
      case None => [s[0]] + ReplaceBlocksWith(s[1..], callback)
  }

  /** One step of the scan at the front of `s`. */
  lemma ReplaceBlocksWithStep(s: string, callback: string -> string)
    requires s != []
    ensures BlockAt(s).Some? ==> 2 <= BlockAt(s).value <= |s| - 2
    ensures BlockAt(s).Some? ==>
              ReplaceBlocksWith(s, callback)
              == callback(s[2..BlockAt(s).value]) + ReplaceBlocksWith(s[BlockAt(s).value + 2..], callback)
    ensures BlockAt(s).None? ==> ReplaceBlocksWith(s, callback) == [s[0]] + ReplaceBlocksWith(s[1..], callback)
  {
  }

  /** The callback `ProcessSQL` hands to the block scan. */
  function Callback(ps: Params): string -> string {
    content => BlockValue(content, ps)
  }

  /** The callback resolves a body to its block value. */
  lemma CallbackApplied(content: string, ps: Params)
    ensures Callback(ps)(content) == BlockValue(content, ps)
  {
  }

  /** Pass 1: every block replaced by its value, the rest kept. */
  function ResolveBlocks(s: string, ps: Params): string {
    ReplaceBlocksWith(s, Callback(ps))
  }

  // ---------------------------------------------------------------------
  // Substitution and the whole transformation

  /** Pass 2: for each parameter in iteration order, every `:key` becomes
      the value's literal. */
  function Substitute(q: string, ps: Params): string
    decreases |ps|
  {
    if ps == [] then q
    else
      var p := ps[|ps| - 1];
      ReplaceAll(Substitute(q, ps[..|ps| - 1]), ":" + p.key, Literal(p.value))
  }

  /** The query `ProcessSQL` returns. */
  function Render(query: string, ps: Params): string {
    Substitute(ResolveBlocks(query, ps), ps)
  }

  /** The loop invariant of `ReplaceBlocks` survives consuming `piece`. */
  lemma ConsumeStep(out: string, piece: string, rest: string, rest': string,
                    callback: string -> string, whole: string)
    requires out + ReplaceBlocksWith(rest, callback) == whole
    requires ReplaceBlocksWith(rest, callback) == piece + ReplaceBlocksWith(rest', callback)
    ensures (out + piece) + ReplaceBlocksWith(rest', callback) == whole
  {
    AppendAssoc(out, piece, ReplaceBlocksWith(rest', callback));
  }

  /** One step of the scan: the block at the front of `rest`, resolved by
      `ResolveBlock`, or else its first character; and what is left. */
  method ScanStep(rest: string, ps: Params) returns (piece: string, rest': string)
    requires rest != []
    ensures |rest'| < |rest|
    ensures ReplaceBlocksWith(rest, Callback(ps)) == piece + ReplaceBlocksWith(rest', Callback(ps))
  {
    var close := BlockAt(rest);
    ReplaceBlocksWithStep(rest, Callback(ps));
    if close.Some? {
      var j := close.value;
      piece := ResolveBlock(rest[2..j], ps);
      CallbackApplied(rest[2..j], ps);
      rest' := rest[j + 2..];
    } else {
      piece, rest' := [rest[0]], rest[1..];
    }
  }

  /** `ReplaceAllStringFunc` with the block callback, as a scan from left
      to right: each block found is resolved by `ResolveBlock`, every other
      character is copied. */
  method ReplaceBlocks(query: string, ps: Params) returns (out: string)
    ensures out == ResolveBlocks(query, ps)
  {
    out := "";
    var rest := query;
    while rest != []
      invariant out + ReplaceBlocksWith(rest, Callback(ps)) == ResolveBlocks(query, ps)
      decreases |rest|
    {
      var piece, rest' := ScanStep(rest, ps);
      ConsumeStep(out, piece, rest, rest', Callback(ps), ResolveBlocks(query, ps));
      out, rest := out + piece, rest';
    }
  }

  /** `ProcessSQL`: pass 1, then the loop over the parameters. */
  method ProcessSQL(query: string, ps: Params) returns (result: string)
    requires DistinctKeys(ps)
    ensures result == Render(query, ps)
  {
    var out := ReplaceBlocks(query, ps);
    result := out;
    var k := 0;
    while k < |ps|
      invariant 0 <= k <= |ps|
      invariant result == Substitute(out, ps[..k])
    {
      var p := ps[k];
      var valStr := DefaultFormat(p.value);
      if p.value.Str? {
        valStr := "\"" + p.value.s + "\"";
      }
      assert ps[..k + 1][..k] == ps[..k];
      result := ReplaceAll(result, ":" + p.key, valStr);
      k := k + 1;
    }
    assert ps[..|ps|] == ps;
  }

  // ---------------------------------------------------------------------
  // Properties of pass 1

  /** The scan walks past characters that cannot close a block and stops
      at the first `}}`. */
  lemma {:induction false} CloseFromReaches(s: string, k: nat, m: nat)
    requires k <= m && IsCloseAt(s, m)
    requires forall i :: k <= i < m ==> s[i] != '}' && s[i] != '\n'
    ensures CloseFrom(s, k) == Some(m)
    decreases m - k
  {
    if k < m {
      CloseFromReaches(s, k + 1, m);
    }
  }

  /** A newline met before any `}` ends the search without a block. */
  lemma {:induction false} CloseFromStops(s: string, k: nat, m: nat)
    requires k <= m < |s| && s[m] == '\n'
    requires forall i :: k <= i < m ==> s[i] != '}'
    ensures CloseFrom(s, k) == None
    decreases m - k
  {
    if k < m && k + 1 < |s| {
      CloseFromStops(s, k + 1, m);
    }
  }

  /** A block whose body holds no `}` and no newline is found, and its
      body is exactly the text between the markers. */
  lemma BlockAtFront(c: string, rest: string)
    requires '}' !in c && '\n' !in c
    ensures BlockAt("{{" + c + "}}" + rest) == Some(|c| + 2)
  {
    var s := "{{" + c + "}}" + rest;
    forall i | 2 <= i < |c| + 2 ensures s[i] != '}' && s[i] != '\n' {
      assert s[i] == c[i - 2];
    }
    CloseFromReaches(s, 2, |c| + 2);
  }

  /** An opening `{{` whose line ends before any `}` opens no block. */
  lemma UnclosedAtNewline(c: string, rest: string)
    requires '}' !in c
    ensures BlockAt("{{" + c + "\n" + rest) == None
  {
    var s := "{{" + c + "\n" + rest;
    forall i | 2 <= i < |c| + 2 ensures s[i] != '}' {
      assert s[i] == c[i - 2];
    }
    CloseFromStops(s, 2, |c| + 2);
  }

  /** Text without `{` is copied through unchanged. */
  lemma {:induction false} PlainTextKept(t: string, rest: string, callback: string -> string)
    requires '{' !in t
    ensures ReplaceBlocksWith(t + rest, callback) == t + ReplaceBlocksWith(rest, callback)
    decreases |t|
  {
    if t == [] {
      assert t + rest == rest;
    } else {
      var s := t + rest;
      assert s[0] == t[0] && s[1..] == t[1..] + rest;
      assert t[0] in t;
      assert BlockAt(s) == None;
      PlainTextKept(t[1..], rest, callback);
      AppendAssoc([t[0]], t[1..], ReplaceBlocksWith(rest, callback));
      assert [t[0]] + t[1..] == t;
    }
  }

  /** A block at the front is replaced by the callback's value for its
      body, and the scan resumes right after its closing marker. */
  lemma BlockReplaced(c: string, rest: string, callback: string -> string)
    requires '}' !in c && '\n' !in c
    ensures ReplaceBlocksWith("{{" + c + "}}" + rest, callback)
            == callback(c) + ReplaceBlocksWith(rest, callback)
  {
    var s := "{{" + c + "}}" + rest;
    BlockAtFront(c, rest);
    assert s[2..|c| + 2] == c;
    assert s[|c| + 4..] == rest;
  }

  /** Text in which no block opens anywhere passes pass 1 unchanged; this
      covers an opening `{{` that is never closed, or whose line ends before
      its `}}`. */
  lemma {:induction false} NoBlockUnchanged(s: string, callback: string -> string)
    requires forall i :: 0 <= i < |s| ==> BlockAt(s[i..]).None?
    ensures ReplaceBlocksWith(s, callback) == s
    decreases |s|
  {
    if s != [] {
      assert s[0..] == s;
      forall i | 0 <= i < |s[1..]| ensures BlockAt(s[1..][i..]).None? {
        assert s[1..][i..] == s[i + 1..];
      }
      NoBlockUnchanged(s[1..], callback);
      assert [s[0]] + s[1..] == s;
    }
  }

  /** Without `{{` no block opens. */
  lemma NoOpenerNoBlock(s: string)
    requires !Contains(s, "{{")
    ensures forall i :: 0 <= i < |s| ==> BlockAt(s[i..]).None?
  {
    forall i | 0 <= i < |s| ensures BlockAt(s[i..]).None? {
      if BlockAt(s[i..]).Some? {
        assert s[i..i + 2] == [s[i..][0], s[i..][1]];
        assert OccursAt(s, "{{", i);
      }
    }
  }

  /** A query without `{{` passes pass 1 unchanged. */
  lemma NoOpenerUnchanged(s: string, callback: string -> string)
    requires !Contains(s, "{{")
    ensures ReplaceBlocksWith(s, callback) == s
  {
    NoOpenerNoBlock(s);
    NoBlockUnchanged(s, callback);
  }

  /** A block body may not cross a line: `{{a`, newline, `b}}` is kept. */
  lemma LineBreakInBlockKept(ps: Params)
    ensures ResolveBlocks("{{a\nb}}", ps) == "{{a\nb}}"
  {
    var s := "{{a\nb}}";
    forall i | 0 <= i < |s| ensures BlockAt(s[i..]).None? {
      if i == 0 {
        CloseFromStops(s, 2, 3);
      }
    }
    NoBlockUnchanged(s, Callback(ps));
  }

  /** A query cut into pieces: text copied as it is, and blocks. */
  datatype Piece = Text(t: string) | Block(body: string)

  /** A piece the scan reads back as that piece: text holds no `{`, and a
      block body holds no `}` and no newline. */
  predicate WellFormed(p: Piece) {
    match p
    case Text(t) => '{' !in t
    case Block(body) => '}' !in body && '\n' !in body
  }

  /** The query text of a list of pieces. */
  function Assemble(pieces: seq<Piece>): string
    decreases |pieces|
  {
    if pieces == [] then []
    else
      var front := match pieces[0]
        case Text(t) => t
        case Block(body) => "{{" + body + "}}";
      front + Assemble(pieces[1..])
  }

  /** The pieces with every block replaced by the callback's value. */
  function Resolved(pieces: seq<Piece>, callback: string -> string): string
    decreases |pieces|
  {
    if pieces == [] then []
    else
      var front := match pieces[0]
        case Text(t) => t
        case Block(body) => callback(body);
      front + Resolved(pieces[1..], callback)
  }

  /** Pass 1 replaces each block independently of the others and keeps all
      text outside blocks. */
  lemma {:induction false} BlocksResolvedIndependently(pieces: seq<Piece>, callback: string -> string)
    requires forall k :: 0 <= k < |pieces| ==> WellFormed(pieces[k])
    ensures ReplaceBlocksWith(Assemble(pieces), callback) == Resolved(pieces, callback)
    decreases |pieces|
  {
    if pieces != [] {
      BlocksResolvedIndependently(pieces[1..], callback);
      var rest := Assemble(pieces[1..]);
      match pieces[0]
      case Text(t) =>
        assert WellFormed(pieces[0]);
        PlainTextKept(t, rest, callback);
      case Block(body) =>
        assert WellFormed(pieces[0]);
        assert Assemble(pieces) == "{{" + body + "}}" + rest;
        BlockReplaced(body, rest, callback);
    }
  }

  // ---------------------------------------------------------------------
  // Properties of the block value

  /** Without an `else` the whole body is the main fragment; if one of its
      placeholders is not a parameter the block disappears. */
  lemma BlockWithoutElse(m: string, ps: Params)
    requires !Contains(m, "else")
    ensures AllPresent(PlaceholderNames(TrimSpace(m)), ps) ==>
              BlockValue(m, ps) == TrimSpace(Uncomment(TrimSpace(m)))
    ensures !AllPresent(PlaceholderNames(TrimSpace(m)), ps) ==> BlockValue(m, ps) == ""
  {
    SplitAbsent(m, "else");
    TrimSpaceIdempotent(m);
  }

  /** The main fragment ends at the first `else`, and the alternative ends
      at the second one: whatever follows a second `else` is dropped. */
  lemma BlockWithElse(m: string, f: string, ps: Params)
    requires !Contains(m + "els", "else")
    ensures AllPresent(PlaceholderNames(TrimSpace(m)), ps) ==>
              BlockValue(m + "else" + f, ps) == TrimSpace(Uncomment(TrimSpace(m)))
    ensures !AllPresent(PlaceholderNames(TrimSpace(m)), ps) ==>
              BlockValue(m + "else" + f, ps) == StripQuotes(TrimSpace(Split(f, "else")[0]))
  {
    assert "else"[..3] == "els";
    SplitAtFirst(m, "else", f);
    TrimSpaceIdempotent(m);
  }

  /** A main fragment written as a comment yields the commented text,
      trimmed. */
  lemma CommentedFragment(w1: string, x: string, w2: string)
    requires AllSpace(w1) && AllSpace(w2)
    ensures TrimSpace(Uncomment(TrimSpace(w1 + "/*" + x + "*/" + w2))) == TrimSpace(x)
  {
    var c := "/*" + x + "*/";
    assert Trimmed(c) by {
      assert c[0] == '/' && c[|c| - 1] == '/';
      assert !IsSpace('/');
    }
    assert w1 + "/*" + x + "*/" + w2 == w1 + c + w2;
    TrimSpaceMargins(w1, c, w2);
    UncommentWrapped(x);
  }

  // ---------------------------------------------------------------------
  // Properties of pass 2

  /** When no `:key` of any parameter occurs in the query, pass 2 leaves it
      alone; in particular a placeholder without a matching key stays as it
      is. */
  lemma {:induction false} SubstituteAbsentKeys(q: string, ps: Params)
    requires forall i :: 0 <= i < |ps| ==> !Contains(q, ":" + ps[i].key)
    ensures Substitute(q, ps) == q
    decreases |ps|
  {
    if ps != [] {
      var p := ps[|ps| - 1];
      SubstituteAbsentKeys(q, ps[..|ps| - 1]);
      ReplaceAllAbsent(q, ":" + p.key, Literal(p.value));
    }
  }

  /** A query in which no block opens and no `:key` of any parameter
      occurs comes back unchanged. */
  lemma RenderUnchanged(q: string, ps: Params)
    requires forall i :: 0 <= i < |q| ==> BlockAt(q[i..]).None?
    requires forall i :: 0 <= i < |ps| ==> !Contains(q, ":" + ps[i].key)
    ensures Render(q, ps) == q
  {
    NoBlockUnchanged(q, Callback(ps));
    SubstituteAbsentKeys(q, ps);
  }

  /** In particular a query holding no `{{` and no `:key` of any parameter
      comes back unchanged. */
  lemma RenderUnchangedWithoutOpener(q: string, ps: Params)
    requires !Contains(q, "{{")
    requires forall i :: 0 <= i < |ps| ==> !Contains(q, ":" + ps[i].key)
    ensures Render(q, ps) == q
  {
    NoOpenerNoBlock(q);
    RenderUnchanged(q, ps);
  }

  /** A text without a colon holds no placeholder of any parameter. */
  lemma NoColonNoKeys(q: string, ps: Params)
    requires ':' !in q
    ensures forall i :: 0 <= i < |ps| ==> !Contains(q, ":" + ps[i].key)
  {
    forall i | 0 <= i < |ps| ensures !Contains(q, ":" + ps[i].key) {
      AbsentFirstChar(q, ":" + ps[i].key);
    }
  }

  /** The one placeholder of a parameter is replaced by its literal. */
  lemma SubstituteOne(a: string, key: string, v: Value, b: string)
    requires ':' !in a && ':' !in b
    ensures Substitute(a + ":" + key + b, [Param(key, v)]) == a + Literal(v) + b
  {
    var p := ":" + key;
    var ps := [Param(key, v)];
    assert ps[..0] == [];
    assert a + ":" + key + b == a + (p + b);
    forall i | 0 <= i < |a| ensures a[i] != p[0] {
      assert a[i] in a;
    }
    ReplaceAllSkip(a, p + b, p, Literal(v));
    ReplaceAllHere(p, b, Literal(v));
    AbsentFirstChar(b, p);
    ReplaceAllAbsent(b, p, Literal(v));
  }

  /** Keys are replaced as plain text, so when one key extends another the
      result depends on the order in which the map is visited. */
  lemma SubstitutionOrderMatters()
    ensures Substitute(":ab", [Param("a", Int(1)), Param("ab", Int(2))]) == "1b"
    ensures Substitute(":ab", [Param("ab", Int(2)), Param("a", Int(1))]) == "2"
  {
    assert Literal(Int(1)) == "1" && Literal(Int(2)) == "2";
    var first := [Param("a", Int(1)), Param("ab", Int(2))];
    assert first[..1] == [Param("a", Int(1))];
    SubstituteOne([], "a", Int(1), "b");
    assert [] + ":" + "a" + "b" == ":ab" && [] + "1" + "b" == "1b";
    AbsentFirstChar("1b", ":ab");
    ReplaceAllAbsent("1b", ":ab", "2");

    var second := [Param("ab", Int(2)), Param("a", Int(1))];
    assert second[..1] == [Param("ab", Int(2))];
    SubstituteOne([], "ab", Int(2), []);
    assert [] + ":" + "ab" + [] == ":ab" && [] + "2" + [] == "2";
    AbsentFirstChar("2", ":a");
    ReplaceAllAbsent("2", ":a", "1");
  }

  /** A string value is not protected from later keys: a placeholder
      inside it is replaced too. */
  lemma ValueTextRewritten()
    ensures Substitute(":a", [Param("a", Str(":b")), Param("b", Int(1))]) == "\"1\""
  {
    var ps := [Param("a", Str(":b")), Param("b", Int(1))];
    assert ps[..1] == [Param("a", Str(":b"))];
    SubstituteOne([], "a", Str(":b"), []);
    assert [] + ":" + "a" + [] == ":a";
    assert Literal(Str(":b")) == "\"" + ":" + "b" + "\"";
    assert [] + Literal(Str(":b")) + [] == "\"" + ":" + "b" + "\"";
    assert Literal(Int(1)) == "1";
    ReplaceAllSkip("\"", ":b" + "\"", ":b", "1");
    ReplaceAllHere(":b", "\"", "1");
    AbsentFirstChar("\"", ":b");
    ReplaceAllAbsent("\"", ":b", "1");
    var quoted := "\"" + (":b" + "\"");
    assert "\"" + ":" + "b" + "\"" == quoted;
    assert Substitute(":a", ps[..1]) == quoted;
    assert ReplaceAll(quoted, ":b", "1") == "\"" + ("1" + "\"");
    assert "\"" + ("1" + "\"") == "\"1\"";
    assert ":" + ps[1].key == ":b";
    assert Substitute(":a", ps) == ReplaceAll(Substitute(":a", ps[..1]), ":b", Literal(Int(1)));
  }
}
