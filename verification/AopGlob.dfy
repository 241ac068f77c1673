/** The pointcut name compiler: globs to regular expressions by six chained
    text replacements, and the language the result accepts. */
module AopGlob {
  import opened Text

  /** The pieces of a pointcut name. */
  datatype Token =
    | Lit(c: char)  // an identifier character, compared without case
    | Sep           // the namespace separator `\`
    | Star          // `*`: any run without a separator
    | Deep          // `**`: anything
    | DeepNs        // `**\`: nothing, or anything that ends in a separator

  /** Characters the pointcut scanner puts into an identifier. */
  predicate IdentChar(c: char) {
    'a' <= c <= 'z' || 'A' <= c <= 'Z' || '0' <= c <= '9' || c == '_' || '\U{7f}' <= c <= '\U{ff}'
  }

  /** The texts the scanner delivers as class and method names. */
  predicate Label(p: string) {
    forall i :: 0 <= i < |p| ==> IdentChar(p[i]) || p[i] == '\\' || p[i] == '*'
  }

  const LETTERS := "abcdefghijklmnopqrstuvwxyz"
  const CAPITALS := "ABCDEFGHIJKLMNOPQRSTUVWXYZ"
  const ASCII_LABEL := LETTERS + CAPITALS + "0123456789_\\*"

  /** The scanner's characters are these of ASCII, and all bytes from 7f on. */
  lemma LabelIs(p: string)
    requires forall i :: 0 <= i < |p| ==> p[i] <= '\U{ff}'
    ensures Label(p) <==> forall i :: 0 <= i < |p| ==> p[i] in ASCII_LABEL || p[i] >= '\U{7f}'
  {
    forall i | 0 <= i < |p|
      ensures IdentChar(p[i]) || p[i] == '\\' || p[i] == '*' <==> p[i] in ASCII_LABEL || p[i] >= '\U{7f}'
    {
      LabelCharIs(p[i]);
    }
  }

  lemma LabelCharIs(c: char)
    requires c <= '\U{ff}'
    ensures IdentChar(c) || c == '\\' || c == '*' <==> c in ASCII_LABEL || c >= '\U{7f}'
  {
    LettersAre(c);
    CapitalsAre(c);
    assert c in "0123456789_\\*" <==> '0' <= c <= '9' || c in {'_', '\\', '*'};
  }

  lemma LettersAre(c: char)
    ensures c in LETTERS <==> 'a' <= c <= 'z'
  {
    if 'a' <= c <= 'z' {
      assert LETTERS[c as int - 'a' as int] == c;
    }
  }

  lemma CapitalsAre(c: char)
    ensures c in CAPITALS <==> 'A' <= c <= 'Z'
  {
    if 'A' <= c <= 'Z' {
      assert CAPITALS[c as int - 'A' as int] == c;
    }
  }

  /** Reads a name from the left. A `**\` is found wherever it stands, so in
      `***\` the first star is alone. */
  function Tokens(p: string): seq<Token> {
    if p == "" then []
    else if "**\\" <= p then [DeepNs] + Tokens(p[3..])
    else if "**" <= p && !("***\\" <= p) then [Deep] + Tokens(p[2..])
    else if p[0] == '*' then [Star] + Tokens(p[1..])
    else if p[0] == '\\' then [Sep] + Tokens(p[1..])
    else [Lit(p[0])] + Tokens(p[1..])
  }

  // ---------------------------------------------------------------- compiler

  function Pass1(p: string): string { ReplaceAll(p, "**\\", "[.#}") }
  function Pass2(p: string): string { ReplaceAll(p, "**", "[.#]") }
  function Pass3(p: string): string { ReplaceAll(p, "\\", "\\\\") }
  function Pass4(p: string): string { ReplaceAll(p, "*", "[^\\\\]*") }
  function Pass5(p: string): string { ReplaceAll(p, "[.#]", ".*") }
  function Pass6(p: string): string { ReplaceAll(p, "[.#}", "(.*\\\\)?") }

  function SixPasses(p: string): string {
    Pass6(Pass5(Pass4(Pass3(Pass2(Pass1(p))))))
  }

  /** How a token is spelled after the first `stage` passes. */
  function Piece(t: Token, stage: nat): (s: string)
    ensures s != ""
  {
    match t
    case Lit(c) => [c]
    case Sep => if stage < 3 then "\\" else "\\\\"
    case Star => if stage < 4 then "*" else "[^\\\\]*"
    case Deep => if stage < 2 then "**" else if stage < 5 then "[.#]" else ".*"
    case DeepNs => if stage < 1 then "**\\" else if stage < 6 then "[.#}" else "(.*\\\\)?"
  }

  function Render(toks: seq<Token>, stage: nat): string {
    if toks == [] then "" else Piece(toks[0], stage) + Render(toks[1..], stage)
  }

  predicate PlainLits(toks: seq<Token>) {
    forall i :: 0 <= i < |toks| && toks[i].Lit? ==> IdentChar(toks[i].c)
  }

  /** No single star has a star behind it, except the first of a `**\`. */
  predicate StarsApart(toks: seq<Token>) {
    forall i :: 0 <= i < |toks| - 1 && toks[i].Star? ==> !toks[i + 1].Star? && !toks[i + 1].Deep?
  }

  /** The first token, and the names behind it. */
  lemma FirstToken(p: string)
    requires Label(p) && p != ""
    ensures Tokens(p) != []
    ensures var t := Tokens(p)[0];
      var n := |Piece(t, 0)|;
      && n <= |p| && p == Piece(t, 0) + p[n..] && Tokens(p) == [t] + Tokens(p[n..])
      && (t.Lit? ==> IdentChar(t.c))
      && (t.Star? ==> n == 1 && !("*" <= p[1..] && !("**\\" <= p[1..])))
  {
    var t := Tokens(p)[0];
    var n := |Piece(t, 0)|;
    assert p == p[..n] + p[n..];
    if t.Star? && |p| > 1 && "***\\" <= p {
      assert "**\\" <= p[1..];
    }
  }

  /** What starts with no star, or with a `**\`, has no other star token first. */
  lemma NoStarFirst(p: string)
    requires Label(p) && p != "" && !("*" <= p && !("**\\" <= p))
    ensures Tokens(p) != [] && !Tokens(p)[0].Star? && !Tokens(p)[0].Deep?
  {
    if "*" <= p {
    } else {
      assert p[0] != '*';
    }
  }

  lemma {:induction false} TokensAreWellFormed(p: string)
    requires Label(p)
    ensures PlainLits(Tokens(p)) && StarsApart(Tokens(p))
    ensures Render(Tokens(p), 0) == p
    decreases |p|
  {
    if p != "" {
      FirstToken(p);
      var t := Tokens(p)[0];
      var n := |Piece(t, 0)|;
      TokensAreWellFormed(p[n..]);
      if t.Star? && p[n..] != "" {
        NoStarFirst(p[n..]);
      }
      hide Tokens;
      assert p[n..] == "" ==> Tokens(p[n..]) == [] by {
        EmptyHasNoTokens();
      }
    }
  }

  lemma EmptyHasNoTokens()
    ensures Tokens("") == []
  {
  }

  /** At place `i` of `a`, one of the first, second or fourth character already
      rules out an occurrence of `needle`. */
  predicate NoStart(a: string, i: nat, needle: string)
    requires i < |a| && needle != ""
  {
    || a[i] != needle[0]
    || (i + 1 < |a| && |needle| > 1 && a[i + 1] != needle[1])
    || (i + 3 < |a| && |needle| > 3 && a[i + 3] != needle[3])
  }

  predicate NoStarts(a: string, needle: string)
    requires needle != ""
  {
    forall i :: 0 <= i < |a| ==> NoStart(a, i, needle)
  }

  /** A token whose spelling holds no start of an occurrence is copied. */
  lemma PieceSkips(a: string, rest: string, needle: string, sub: string)
    requires needle != ""
    requires NoStarts(a, needle)
    ensures ReplaceAll(a + rest, needle, sub) == a + ReplaceAll(rest, needle, sub)
  {
    forall i | 0 <= i < |a|
      ensures !(needle <= (a + rest)[i..])
    {
      var x := (a + rest)[i..];
      if needle <= x {
        assert NoStart(a, i, needle);
        assert forall k :: 0 <= k < |needle| ==> needle[k] == x[k];
        assert forall k :: 0 <= k < |a| - i ==> x[k] == a[i + k];
      }
    }
    ReplaceAllSkips(a, rest, needle, sub);
  }

  /** The first pass turns the source text of the tokens into stage one. */
  lemma {:induction false} FirstPass(p: string)
    requires Label(p)
    ensures Pass1(p) == Render(Tokens(p), 1)
    decreases |p|
  {
    if p != "" {
      var n := |Piece(Tokens(p)[0], 0)|;
      FirstPass(p[n..]);
      assert Tokens(p)[1..] == Tokens(p[n..]);
      if Tokens(p)[0].Deep? {
        assert p == "**" + p[2..];
        assert p[0..] == p;
        assert !("**\\" <= p[1..]);
        ReplaceAllSkips("**", p[2..], "**\\", "[.#}");
      }
    }
  }

  /** The second pass finds exactly the `**` tokens. */
  lemma {:induction false} SecondPass(toks: seq<Token>)
    requires PlainLits(toks) && StarsApart(toks)
    ensures Pass2(Render(toks, 1)) == Render(toks, 2)
  {
    if toks != [] {
      var t, rest := toks[0], Render(toks[1..], 1);
      SecondPass(toks[1..]);
      if t.Deep? {
        ReplaceAllHits(rest, "**", "[.#]");
      } else if t.Star? {
        assert ("*" + rest)[1..] == rest;
        if rest != "" {
          assert toks[1..] != [] && toks[1..][0] == toks[1];
        }
      } else {
        PieceSkips(Piece(t, 1), rest, "**", "[.#]");
      }
    }
  }

  /** The needle of each of the passes three to six, its replacement, and the
      token it belongs to. */
  function Needle(pass: nat): string {
    if pass == 3 then "\\" else if pass == 4 then "*" else if pass == 5 then "[.#]" else "[.#}"
  }

  function Substitute(pass: nat): string {
    if pass == 3 then "\\\\" else if pass == 4 then "[^\\\\]*" else if pass == 5 then ".*" else "(.*\\\\)?"
  }

  function Subject(pass: nat): Token {
    if pass == 3 then Sep else if pass == 4 then Star else if pass == 5 then Deep else DeepNs
  }

  /** Away from its own token, a later pass finds nothing in a spelling. */
  lemma NothingToReplace(t: Token, pass: nat)
    requires 3 <= pass <= 6 && t != Subject(pass)
    requires t.Lit? ==> IdentChar(t.c)
    ensures Piece(t, pass) == Piece(t, pass - 1)
    ensures NoStarts(Piece(t, pass - 1), Needle(pass))
  {
  }

  lemma {:induction false} LaterPass(toks: seq<Token>, pass: nat)
    requires 3 <= pass <= 6 && PlainLits(toks)
    ensures ReplaceAll(Render(toks, pass - 1), Needle(pass), Substitute(pass)) == Render(toks, pass)
  {
    if toks != [] {
      var t, rest := toks[0], Render(toks[1..], pass - 1);
      LaterPass(toks[1..], pass);
      if t == Subject(pass) {
        ReplaceAllHits(rest, Needle(pass), Substitute(pass));
      } else {
        NothingToReplace(t, pass);
        PieceSkips(Piece(t, pass - 1), rest, Needle(pass), Substitute(pass));
      }
    }
  }

  /** The six chained replacements translate the name token by token, for every
      text the scanner can deliver. */
  lemma SixPassesTranslateTokens(p: string)
    requires Label(p)
    ensures SixPasses(p) == Render(Tokens(p), 6)
  {
    var toks := Tokens(p);
    TokensAreWellFormed(p);
    FirstPass(p);
    SecondPass(toks);
    LaterPass(toks, 3);
    LaterPass(toks, 4);
    LaterPass(toks, 5);
    LaterPass(toks, 6);
  }

  // ------------------------------------------------------ regular expressions

  /** The part of PCRE the compiler emits. */
  datatype Re =
    | Eps
    | Chr(c: char)     // one character, case ignored
    | Dot              // any character but a line feed
    | NotSep           // `[^\\\\]`
    | Cat(first: Re, second: Re)
    | Opt(inner: Re)
    | Many(inner: Re)  // postfix `*`

  /** Reads pieces with an optional `*` or `?` behind each, up to the end or a
      closing parenthesis; the result holds the unread rest. */
  function ParseSequence(s: string): (r: Option<(Re, string)>)
    ensures r.Some? ==> |r.value.1| <= |s|
    decreases |s|, 1
  {
    if s == "" || s[0] == ')' then Some((Eps, s))
    else
      match ParseAtom(s)
      case None => None
      case Some((atom, rest)) =>
        var (piece, behind) := Quantified(atom, rest);
        match ParseSequence(behind)
        case None => None
        case Some((tail, end)) => Some((Cat(piece, tail), end))
  }

  function Quantified(atom: Re, rest: string): (r: (Re, string))
    ensures |r.1| <= |rest|
  {
    if rest != "" && rest[0] == '*' then (Many(atom), rest[1..])
    else if rest != "" && rest[0] == '?' then (Opt(atom), rest[1..])
    else (atom, rest)
  }

  function ParseAtom(s: string): (r: Option<(Re, string)>)
    requires s != "" && s[0] != ')'
    ensures r.Some? ==> |r.value.1| < |s|
    decreases |s|, 0
  {
    if s[0] == '\\' then
      if |s| < 2 then None else Some((Chr(s[1]), s[2..]))
    else if s[0] == '.' then Some((Dot, s[1..]))
    else if s[0] == '[' then
      if "[^\\\\]" <= s then Some((NotSep, s[5..])) else None
    else if s[0] == '(' then
      match ParseSequence(s[1..])
      case None => None
      case Some((inner, rest)) =>
        if rest != "" && rest[0] == ')' then Some((inner, rest[1..])) else None
    else if s[0] in "*?+{|^$" then None
    else Some((Chr(s[0]), s[1..]))
  }

  /** The language of an expression. */
  predicate Matches(re: Re, s: string)
    decreases re, |s|
  {
    match re
    case Eps => s == ""
    case Chr(c) => |s| == 1 && Fold(s[0]) == Fold(c)
    case Dot => |s| == 1 && s[0] != '\n'
    case NotSep => |s| == 1 && s[0] != '\\'
    case Cat(a, b) => exists k :: 0 <= k <= |s| && Matches(a, s[..k]) && Matches(b, s[k..])
    case Opt(a) => s == "" || Matches(a, s)
    case Many(a) => s == "" || exists k :: 0 < k <= |s| && Matches(a, s[..k]) && Matches(re, s[k..])
  }

  /** PCRE on a text `/^body$/i`: the body spans the subject, or the subject
      without a final line feed, where `$` may match too. */
  predicate PcreMatches(regexp: string, subject: string) {
    |regexp| >= 5 && "/^" <= regexp && regexp[|regexp| - 3..] == "$/i" &&
    match ParseSequence(regexp[2..|regexp| - 3])
    case None => false
    case Some((re, rest)) =>
      rest == "" &&
      (Matches(re, subject) ||
       (subject != "" && subject[|subject| - 1] == '\n' && Matches(re, subject[..|subject| - 1])))
  }

  /** The compiler's result: the six passes between anchors, without a leading
      separator, which is two characters by then. */
  function Compile(p: string): string
    requires Label(p)
  {
    SixPassesTranslateTokens(p);
    var body := SixPasses(p);
    if body == "" || body[0] != '\\' then "/^" + body + "$/i"
    else "/^" + body[2..] + "$/i"
  }

  // --------------------------------------------------------------- the meaning

  /** The names a token list stands for. */
  predicate Denotes(toks: seq<Token>, name: string)
    decreases |toks|
  {
    if toks == [] then name == ""
    else
      match toks[0]
      case Lit(c) => name != "" && Fold(name[0]) == Fold(c) && Denotes(toks[1..], name[1..])
      case Sep => name != "" && name[0] == '\\' && Denotes(toks[1..], name[1..])
      case Star => exists k :: 0 <= k <= |name| && '\\' !in name[..k] && Denotes(toks[1..], name[k..])
      case Deep => exists k :: 0 <= k <= |name| && Denotes(toks[1..], name[k..])
      case DeepNs => exists k :: 0 <= k <= |name| && (k == 0 || name[k - 1] == '\\') && Denotes(toks[1..], name[k..])
  }

  /** A pointcut name matches class and function names without regard to one
      leading separator of the pattern. */
  function WithoutLeadingSep(toks: seq<Token>): seq<Token> {
    if toks != [] && toks[0].Sep? then toks[1..] else toks
  }

  predicate GlobMatches(p: string, name: string) {
    Denotes(WithoutLeadingSep(Tokens(p)), name)
  }

  // ------------------------------------------------------------------- proofs

  function TokenRe(t: Token): Re {
    match t
    case Lit(c) => Chr(c)
    case Sep => Chr('\\')
    case Star => Many(NotSep)
    case Deep => Many(Dot)
    case DeepNs => Opt(Cat(Many(Dot), Cat(Chr('\\'), Eps)))
  }

  function TokensRe(toks: seq<Token>): Re {
    if toks == [] then Eps else Cat(TokenRe(toks[0]), TokensRe(toks[1..]))
  }

  /** The group that `**\` compiles to, up to its closing parenthesis. */
  lemma ParseGroup(rest: string)
    ensures ParseSequence(".*\\\\)?" + rest) == Some((Cat(Many(Dot), Cat(Chr('\\'), Eps)), ")?" + rest))
  {
    var s := ".*\\\\)?" + rest;
    var tail := "\\\\)?" + rest;
    assert s[1..][1..] == tail;
    assert tail[2..] == ")?" + rest;
    assert ParseSequence(")?" + rest) == Some((Eps, ")?" + rest));
    assert ParseAtom(tail) == Some((Chr('\\'), ")?" + rest));
    assert ParseSequence(tail) == Some((Cat(Chr('\\'), Eps), ")?" + rest));
    assert ParseAtom(s) == Some((Dot, s[1..]));
  }

  /** The atom that starts a token's spelling, and what stands behind it. */
  lemma ParseFirstAtom(t: Token, rest: string)
    requires t.Lit? ==> IdentChar(t.c)
    requires rest == "" || rest[0] !in "*?"
    ensures var s := Piece(t, 6) + rest;
      s[0] != ')' && ParseAtom(s).Some? && Quantified(ParseAtom(s).value.0, ParseAtom(s).value.1) == (TokenRe(t), rest)
  {
    var s := Piece(t, 6) + rest;
    match t {
      case Lit(c) =>
        assert s[1..] == rest;
      case Sep =>
        assert s[2..] == rest;
      case Star =>
        assert s[5..] == "*" + rest;
        assert s[5..][1..] == rest;
      case Deep =>
        assert s[1..] == "*" + rest;
        assert s[1..][1..] == rest;
      case DeepNs =>
        assert s[1..] == ".*\\\\)?" + rest;
        ParseGroup(rest);
        assert (")?" + rest)[1..] == "?" + rest;
        assert ("?" + rest)[1..] == rest;
    }
  }

  lemma {:induction false} ParseRendered(toks: seq<Token>)
    requires PlainLits(toks)
    ensures ParseSequence(Render(toks, 6)) == Some((TokensRe(toks), ""))
  {
    if toks != [] {
      ParseRendered(toks[1..]);
      var rest := Render(toks[1..], 6);
      if toks[1..] != [] {
        assert rest[0] == Piece(toks[1], 6)[0];
      }
      ParseFirstAtom(toks[0], rest);
    }
  }

  lemma {:induction false} ManyIsAllOf(re: Re, s: string)
    requires re == NotSep || re == Dot
    ensures Matches(Many(re), s) <==> (forall i :: 0 <= i < |s| ==> Matches(re, [s[i]]))
    decreases |s|
  {
    if s != "" {
      ManyIsAllOf(re, s[1..]);
      assert s[..1] == [s[0]];
      if forall i :: 0 <= i < |s| ==> Matches(re, [s[i]]) {
        assert Matches(re, [s[0]]);
        assert forall i :: 0 <= i < |s[1..]| ==> s[1..][i] == s[i + 1];
        assert Matches(re, s[..1]) && Matches(Many(re), s[1..]);
      }
      if Matches(Many(re), s) {
        var k :| 0 < k <= |s| && Matches(re, s[..k]) && Matches(Many(re), s[k..]);
        assert k == 1;
        forall i | 0 <= i < |s|
          ensures Matches(re, [s[i]])
        {
          if i > 0 {
            assert s[1..][i - 1] == s[i];
          }
        }
      }
    }
  }

  lemma SeparatorAlone(s: string)
    ensures Matches(Cat(Chr('\\'), Eps), s) <==> s == "\\"
  {
    if s == "\\" {
      assert s[..1] == s && s[1..] == "";
      assert Matches(Chr('\\'), s[..1]) && Matches(Eps, s[1..]);
    }
  }

  /** `(.*\\)?` matches nothing, or what ends in a separator. */
  lemma OptionalNamespace(s: string)
    requires '\n' !in s
    ensures Matches(TokenRe(DeepNs), s) <==> (s == "" || s[|s| - 1] == '\\')
  {
    var re := Cat(Many(Dot), Cat(Chr('\\'), Eps));
    if s != "" && s[|s| - 1] == '\\' {
      var k := |s| - 1;
      ManyIsAllOf(Dot, s[..k]);
      SeparatorAlone(s[k..]);
      assert Matches(Many(Dot), s[..k]) && Matches(Cat(Chr('\\'), Eps), s[k..]);
    }
    if Matches(re, s) {
      var k :| 0 <= k <= |s| && Matches(Many(Dot), s[..k]) && Matches(Cat(Chr('\\'), Eps), s[k..]);
      SeparatorAlone(s[k..]);
      assert s == s[..k] + s[k..];
    }
  }

  /** What a single token's expression accepts. */
  lemma TokenLanguage(t: Token, s: string)
    requires '\n' !in s
    ensures Matches(TokenRe(t), s) <==>
      match t
      case Lit(c) => |s| == 1 && Fold(s[0]) == Fold(c)
      case Sep => s == "\\"
      case Star => '\\' !in s
      case Deep => true
      case DeepNs => s == "" || s[|s| - 1] == '\\'
  {
    match t {
      case Lit(_) =>
      case Sep =>
      case Star => ManyIsAllOf(NotSep, s);
      case Deep => ManyIsAllOf(Dot, s);
      case DeepNs => OptionalNamespace(s);
    }
  }

  lemma {:induction false} RegexDenotesTokens(toks: seq<Token>, name: string)
    requires '\n' !in name
    ensures Matches(TokensRe(toks), name) <==> Denotes(toks, name)
    decreases |toks|
  {
    if toks != [] {
      var t, rest := toks[0], toks[1..];
      forall k | 0 <= k <= |name|
        ensures Matches(TokensRe(rest), name[k..]) <==> Denotes(rest, name[k..])
        ensures Matches(TokenRe(t), name[..k]) <==>
          match t
          case Lit(c) => k == 1 && Fold(name[0]) == Fold(c)
          case Sep => k == 1 && name[0] == '\\'
          case Star => '\\' !in name[..k]
          case Deep => true
          case DeepNs => k == 0 || name[k - 1] == '\\'
      {
        RegexDenotesTokens(rest, name[k..]);
        TokenLanguage(t, name[..k]);
      }
    }
  }

  /** Glob compilation preserves meaning: the compiled, anchored expression
      accepts exactly the names the pattern denotes. */
  lemma CompiledAcceptsGlob(p: string, name: string)
    requires Label(p) && '\n' !in name
    ensures PcreMatches(Compile(p), name) <==> GlobMatches(p, name)
  {
    var toks := Tokens(p);
    var kept := WithoutLeadingSep(toks);
    SixPassesTranslateTokens(p);
    TokensAreWellFormed(p);
    var body := Render(kept, 6);
    if toks != [] {
      assert SixPasses(p)[0] == Piece(toks[0], 6)[0];
      assert toks[0].Sep? ==> SixPasses(p)[2..] == Render(toks[1..], 6);
    }
    var regexp := Compile(p);
    assert regexp == "/^" + body + "$/i";
    assert regexp[2..|regexp| - 3] == body;
    assert regexp[|regexp| - 3..] == "$/i";
    ParseRendered(kept);
    RegexDenotesTokens(kept, name);
  }

  // ------------------------------------------- where left-to-right reading fails

  /** The reading one expects first: at each place the longest token. */
  function GreedyTokens(p: string): seq<Token> {
    if p == "" then []
    else if "**\\" <= p then [DeepNs] + GreedyTokens(p[3..])
    else if "**" <= p then [Deep] + GreedyTokens(p[2..])
    else if p[0] == '*' then [Star] + GreedyTokens(p[1..])
    else if p[0] == '\\' then [Sep] + GreedyTokens(p[1..])
    else [Lit(p[0])] + GreedyTokens(p[1..])
  }

  function LeadingStars(p: string): (n: nat)
    ensures n <= |p|
    ensures forall i :: 0 <= i < n ==> p[i] == '*'
    ensures n < |p| ==> p[n] != '*'
  {
    if p == "" || p[0] != '*' then 0 else 1 + LeadingStars(p[1..])
  }

  /** Somewhere three, five, seven ... stars stand directly before a separator. */
  predicate OddRunBeforeSep(p: string)
    decreases |p|
  {
    if p == "" then false
    else if p[0] != '*' then OddRunBeforeSep(p[1..])
    else
      var n := LeadingStars(p);
      OddThenSep(p, n) || OddRunBeforeSep(p[n..])
  }

  predicate OddThenSep(p: string, n: nat) {
    n >= 3 && n % 2 == 1 && n < |p| && p[n] == '\\'
  }

  lemma {:induction false} LeadingStarsIs(p: string, n: nat)
    requires n <= |p| && (forall i :: 0 <= i < n ==> p[i] == '*') && (n < |p| ==> p[n] != '*')
    ensures LeadingStars(p) == n
  {
  }

  /** Dropping two stars of a longer run changes nothing. */
  lemma {:induction false} DropTwoStars(p: string)
    requires "**" <= p && LeadingStars(p) != 3
    ensures OddRunBeforeSep(p) == OddRunBeforeSep(p[2..])
  {
    var n, q := LeadingStars(p), p[2..];
    assert p[0] == '*' && p[1] == '*';
    assert n >= 2;
    LeadingStarsIs(q, n - 2);
    assert q[n - 2..] == p[n..];
    assert OddThenSep(p, n) == OddThenSep(q, n - 2);
    if n > 2 {
      assert q[0] == '*';
    } else {
      assert q == p[n..];
    }
  }

  lemma {:induction false} GreedyAgreesIff(p: string)
    ensures GreedyTokens(p) == Tokens(p) <==> !OddRunBeforeSep(p)
    decreases |p|
  {
    if p != "" {
      var t, u := Tokens(p), GreedyTokens(p);
      if p[0] != '*' {
        GreedyAgreesIff(p[1..]);
        assert t[1..] == Tokens(p[1..]) && u[1..] == GreedyTokens(p[1..]);
      } else {
        assert LeadingStars(p) == 1 + LeadingStars(p[1..]);
        if LeadingStars(p) == 1 {
          GreedyAgreesIff(p[1..]);
          assert t[1..] == Tokens(p[1..]) && u[1..] == GreedyTokens(p[1..]);
        } else {
          assert LeadingStars(p[1..]) == 1 + LeadingStars(p[1..][1..]);
          StarRunsAgree(p);
        }
      }
    }
  }

  lemma {:induction false} StarRunsAgree(p: string)
    requires "**" <= p
    ensures GreedyTokens(p) == Tokens(p) <==> !OddRunBeforeSep(p)
    decreases |p|, 0
  {
    var t, u, n := Tokens(p), GreedyTokens(p), LeadingStars(p);
    assert n >= 2;
    if "**\\" <= p {
      LeadingStarsIs(p, 2);
      DropTwoStars(p);
      assert !OddRunBeforeSep(p[2..]) <==> !OddRunBeforeSep(p[2..][1..]);
      assert p[2..][1..] == p[3..];
      GreedyAgreesIff(p[3..]);
      assert t[1..] == Tokens(p[3..]) && u[1..] == GreedyTokens(p[3..]);
    } else if "***\\" <= p {
      LeadingStarsIs(p, 3);
      assert t[0] == Star && u[0] == Deep;
    } else {
      GreedyAgreesIff(p[2..]);
      assert t[1..] == Tokens(p[2..]) && u[1..] == GreedyTokens(p[2..]);
      if n == 3 {
        assert p[2..][0] == '*';
        assert LeadingStars(p[2..]) == 1;
        assert p[2..][1..] == p[3..];
      } else {
        DropTwoStars(p);
      }
    }
  }

  /** Spellings are read back uniquely, so different tokens give different text. */
  lemma {:induction false} RenderIsInjective(a: seq<Token>, b: seq<Token>)
    requires PlainLits(a) && PlainLits(b)
    requires Render(a, 6) == Render(b, 6)
    ensures a == b
  {
    if a == [] || b == [] {
    } else {
      var x, y := Piece(a[0], 6), Piece(b[0], 6);
      assert x[0] == Render(a, 6)[0] && y[0] == Render(b, 6)[0];
      assert a[0] == b[0];
      assert Render(a, 6)[|x|..] == Render(a[1..], 6);
      assert Render(b, 6)[|x|..] == Render(b[1..], 6);
      RenderIsInjective(a[1..], b[1..]);
      assert a == [a[0]] + a[1..] && b == [b[0]] + b[1..];
    }
  }

  lemma {:induction false} GreedyLitsArePlain(p: string)
    requires Label(p)
    ensures PlainLits(GreedyTokens(p))
    decreases |p|
  {
    if p != "" {
      var n := |Piece(GreedyTokens(p)[0], 0)|;
      GreedyLitsArePlain(p[n..]);
      assert GreedyTokens(p)[1..] == GreedyTokens(p[n..]);
    }
  }

  /** The six passes translate a name longest token first exactly when no odd
      run of three or more stars stands directly before a separator. */
  lemma SixPassesAreGreedyIff(p: string)
    requires Label(p)
    ensures SixPasses(p) == Render(GreedyTokens(p), 6) <==> !OddRunBeforeSep(p)
  {
    SixPassesTranslateTokens(p);
    TokensAreWellFormed(p);
    GreedyLitsArePlain(p);
    GreedyAgreesIff(p);
    if SixPasses(p) == Render(GreedyTokens(p), 6) {
      RenderIsInjective(Tokens(p), GreedyTokens(p));
    }
  }

  /** The two readings mean different things: the compiled `***\\` accepts `a`. */
  lemma OddRunChangesMeaning()
    ensures OddRunBeforeSep("***\\")
    ensures GlobMatches("***\\", "a") && !Denotes(GreedyTokens("***\\"), "a")
  {
    var p := "***\\";
    LeadingStarsIs(p, 3);
    assert p[1..] == "**\\" && p[1..][3..] == "" && p[2..] == "*\\" && p[2..][1..] == "\\";
    assert Tokens(p) == [Star] + Tokens("**\\");
    assert Tokens("**\\") == [DeepNs];
    StarThenNamespace();
    assert GreedyTokens(p) == [Deep] + GreedyTokens("*\\");
    assert GreedyTokens("*\\") == [Star] + GreedyTokens("\\");
    assert GreedyTokens("\\")[0] == Sep;
    if Denotes(GreedyTokens(p), "a") {
      NeedsSeparator(GreedyTokens(p), "a");
    }
  }

  lemma StarThenNamespace()
    ensures Denotes([Star] + [DeepNs], "a")
  {
    var toks := [Star] + [DeepNs];
    assert toks[1..] == [DeepNs] && [DeepNs][1..] == [];
    assert "a"[1..] == "" && ""[0..] == "";
    assert Denotes([DeepNs][1..], ""[0..]);
    assert Denotes([DeepNs], "");
    assert '\\' !in "a"[..1] && Denotes(toks[1..], "a"[1..]);
  }

  /** A token list that holds a separator matches only names that hold one. */
  lemma {:induction false} NeedsSeparator(toks: seq<Token>, name: string)
    requires Sep in toks && Denotes(toks, name)
    ensures '\\' in name
    decreases |toks|
  {
    match toks[0] {
      case Sep =>
      case Lit(_) => NeedsSeparator(toks[1..], name[1..]);
      case Star =>
        var k :| 0 <= k <= |name| && '\\' !in name[..k] && Denotes(toks[1..], name[k..]);
        NeedsSeparator(toks[1..], name[k..]);
      case Deep =>
        var k :| 0 <= k <= |name| && Denotes(toks[1..], name[k..]);
        NeedsSeparator(toks[1..], name[k..]);
      case DeepNs =>
        var k :| 0 <= k <= |name| && (k == 0 || name[k - 1] == '\\') && Denotes(toks[1..], name[k..]);
        NeedsSeparator(toks[1..], name[k..]);
    }
  }

  // ---------------------------------------------------- names without a star

  /** The direct comparison the engine makes when the name holds no star. */
  predicate ComparesEqual(text: string, name: string) {
    EqualFold(if text != "" && text[0] == '\\' then text[1..] else text, name)
  }

  lemma {:induction false} StarlessTokens(p: string, name: string)
    requires '*' !in p
    ensures Denotes(Tokens(p), name) <==> EqualFold(p, name)
    decreases |p|
  {
    if p != "" {
      assert !("**" <= p) && !("**\\" <= p) by {
        assert p[0] != '*';
      }
      assert Tokens(p)[1..] == Tokens(p[1..]);
      if name != "" {
        StarlessTokens(p[1..], name[1..]);
        assert p == [p[0]] + p[1..] && name == [name[0]] + name[1..];
      }
    }
  }

  /** The direct comparison and the compiled expression agree on starless names. */
  lemma DirectComparisonAgrees(p: string, name: string)
    requires Label(p) && '*' !in p && '\n' !in name
    ensures PcreMatches(Compile(p), name) <==> ComparesEqual(p, name)
  {
    CompiledAcceptsGlob(p, name);
    StarlessTokens(p, name);
    if p != "" && p[0] == '\\' {
      StarlessTokens(p[1..], name);
      assert Tokens(p)[1..] == Tokens(p[1..]);
    }
  }
}
