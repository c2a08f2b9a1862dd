/** Globs compiled to regular expressions (globToRegexp, server/internal/codemap/codemap.go). */
module CodemapGlob {
  import opened Text
  import opened Wrappers

  // ---- What a glob means: `*` and `?` stay within a directory, `**/` skips whole directories, `**` skips anything

  predicate GlobMatch(p: string, n: string)
    decreases |p|, |n|
  {
    if |p| == 0 then |n| == 0
    else if "**/" <= p then
      GlobMatch(p[3..], n) || exists i :: 0 <= i < |n| && n[i] == '/' && GlobMatch(p[3..], n[i + 1..])
    else if "**" <= p then
      GlobMatch(p[2..], n) || (|n| > 0 && GlobMatch(p, n[1..]))
    else if p[0] == '*' then
      GlobMatch(p[1..], n) || (|n| > 0 && n[0] != '/' && GlobMatch(p, n[1..]))
    else if p[0] == '?' then
      |n| > 0 && n[0] != '/' && GlobMatch(p[1..], n[1..])
    else
      |n| > 0 && n[0] == p[0] && GlobMatch(p[1..], n[1..])
  }

  // ---- The compiler

  predicate Meta(c: char) { c in "\\.+*?()|[]{}^$" }

  function Quote(c: char): string { if Meta(c) then ['\\', c] else [c] }

  /** The text written for a pattern, between the anchors. */
  function Emit(p: string): string {
    if |p| == 0 then ""
    else if "**/" <= p then "(?:.*/)?" + Emit(p[3..])
    else if "**" <= p then ".*" + Emit(p[2..])
    else if p[0] == '*' then "[^/]*" + Emit(p[1..])
    else if p[0] == '?' then "[^/]" + Emit(p[1..])
    else Quote(p[0]) + Emit(p[1..])
  }

  lemma EmitUnfold(p: string, piece: string, width: nat)
    requires 0 < |p| && 1 <= width <= |p|
    requires if "**/" <= p then piece == "(?:.*/)?" && width == 3
             else if "**" <= p then piece == ".*" && width == 2
             else width == 1 && piece == if p[0] == '*' then "[^/]*" else if p[0] == '?' then "[^/]" else Quote(p[0])
    ensures Emit(p) == piece + Emit(p[width..])
  {
  }

  lemma EmitNone()
    ensures Emit("") == ""
  {
  }

  method GlobToRegexp(pattern: string) returns (text: string, basenameOnly: bool)
    ensures text == "^" + Emit(pattern) + "$"
    ensures basenameOnly <==> '/' !in pattern
  {
    hide Emit, Quote;
    var b := "^";
    var i := 0;
    while i < |pattern|
      invariant i <= |pattern|
      invariant b + Emit(pattern[i..]) == "^" + Emit(pattern)
    {
      ghost var rest := pattern[i..];
      var c := pattern[i];
      var piece, width := Quote(c), 1;
      if c == '*' {
        if i + 1 < |pattern| && pattern[i + 1] == '*' {
          if i + 2 < |pattern| && pattern[i + 2] == '/' {
            piece, width := "(?:.*/)?", 3;
          } else {
            piece, width := ".*", 2;
          }
        } else {
          piece := "[^/]*";
        }
      } else if c == '?' {
        piece := "[^/]";
      }
      EmitUnfold(rest, piece, width);
      assert rest[width..] == pattern[i + width..];
      assert b + (piece + Emit(rest[width..])) == (b + piece) + Emit(rest[width..]);
      b := b + piece;
      i := i + width;
    }
    assert pattern[|pattern|..] == "";
    EmitNone();
    assert b + "" == b;
    text := b + "$";
    basenameOnly := forall k :: 0 <= k < |pattern| ==> pattern[k] != '/';
  }

  // ---- Regular expressions: the part of the syntax the compiler uses, and its meaning

  datatype Re = Eps | Cat(node: Node, rep: Rep, rest: Re)
  datatype Node = Lit(c: char) | Any | NotSlash | Group(body: Re)
  datatype Rep = One | Star | Opt

  /** `.` does not match a newline; `[^/]` does. */
  ghost predicate Matches(re: Re, s: string)
    decreases re, |s|, 2
  {
    match re
    case Eps => |s| == 0
    case Cat(n, rep, rest) => exists k :: 0 <= k <= |s| && Repeats(n, rep, s[..k]) && Matches(rest, s[k..])
  }

  ghost predicate Repeats(n: Node, rep: Rep, s: string)
    decreases n, |s|, 1
  {
    match rep
    case One => Once(n, s)
    case Opt => |s| == 0 || Once(n, s)
    case Star => |s| == 0 || exists k :: 0 < k <= |s| && Once(n, s[..k]) && Repeats(n, Star, s[k..])
  }

  ghost predicate Once(n: Node, s: string)
    decreases n, |s|, 0
  {
    match n
    case Lit(c) => s == [c]
    case Any => |s| == 1 && s[0] != '\n'
    case NotSlash => |s| == 1 && s[0] != '/'
    case Group(body) => Matches(body, s)
  }

  /** Reading one atom: an escape, a dot, the one character class, a non-capturing group, or a literal. */
  function ParseNode(t: string): Option<(Node, string)>
    ensures ParseNode(t).Some? ==> |ParseNode(t).value.1| < |t|
    decreases |t|, 0
  {
    if |t| == 0 then None
    else if t[0] == '\\' then (if |t| < 2 then None else Some((Lit(t[1]), t[2..])))
    else if t[0] == '.' then Some((Any, t[1..]))
    else if "[^/]" <= t then Some((NotSlash, t[4..]))
    else if "(?:" <= t then
      match ParseItems(t[3..])
      case None => None
      case Some((body, rest)) => if |rest| > 0 && rest[0] == ')' then Some((Group(body), rest[1..])) else None
    else if Meta(t[0]) then None
    else Some((Lit(t[0]), t[1..]))
  }

  /** Reading atoms with their repetition marks up to a closing parenthesis, an end anchor or the end. */
  function ParseItems(t: string): Option<(Re, string)>
    ensures ParseItems(t).Some? ==> |ParseItems(t).value.1| <= |t|
    decreases |t|, 1
  {
    if |t| == 0 || t[0] == ')' || t[0] == '$' then Some((Eps, t))
    else
      match ParseNode(t)
      case None => None
      case Some((node, rest)) =>
        var rep := if |rest| == 0 then One else if rest[0] == '*' then Star else if rest[0] == '?' then Opt else One;
        var after := if rep == One then rest else rest[1..];
        if |after| > 0 && (after[0] == '*' || after[0] == '?' || after[0] == '+') then None
        else
          match ParseItems(after)
          case None => None
          case Some((more, tail)) => Some((Cat(node, rep, more), tail))
  }

  function Parse(text: string): Option<Re> {
    if |text| == 0 || text[0] != '^' then None
    else
      match ParseItems(text[1..])
      case Some((re, "$")) => Some(re)
      case _ => None
  }

  // ---- What the compiled text parses to

  const SLASH := Cat(Lit('/'), One, Eps)
  const DIRS := Group(Cat(Any, Star, SLASH))

  function Items(p: string): Re {
    if |p| == 0 then Eps
    else if "**/" <= p then Cat(DIRS, Opt, Items(p[3..]))
    else if "**" <= p then Cat(Any, Star, Items(p[2..]))
    else if p[0] == '*' then Cat(NotSlash, Star, Items(p[1..]))
    else if p[0] == '?' then Cat(NotSlash, One, Items(p[1..]))
    else Cat(Lit(p[0]), One, Items(p[1..]))
  }

  /** Emitted text never begins with a repetition mark, so a mark always belongs to the atom before it. */
  predicate StartsAtom(t: string) { |t| > 0 && t[0] != '*' && t[0] != '?' && t[0] != '+' && t[0] != ')' }

  lemma {:induction false} EmitStartsAtom(p: string)
    ensures StartsAtom(Emit(p) + "$")
    ensures |p| > 0 ==> StartsAtom(Emit(p)) && Emit(p)[0] != '$'
  {
    if |p| > 0 {
      assert Emit(p)[0] == if "**/" <= p then '(' else if "**" <= p then '.' else if p[0] == '*' || p[0] == '?' then '['
                           else if Meta(p[0]) then '\\' else p[0];
    }
  }

  /** The body of the optional group, up to its closing parenthesis. */
  lemma ParseDirsBody(rest: string)
    ensures ParseItems(".*/)?" + rest) == Some((Cat(Any, Star, SLASH), ")?" + rest))
  {
    hide ParseItems, ParseNode;
    var slash := "/" + (")?" + rest);
    ParseSlash(rest);
    ParseDot(slash);
    assert ".*/)?" + rest == ".*" + slash;
    ParseOne(".*" + slash, Any, Star, "*", SLASH, slash, ")?" + rest);
  }

  lemma ParseSlash(rest: string)
    ensures ParseItems("/" + (")?" + rest)) == Some((SLASH, ")?" + rest))
  {
    hide ParseItems, ParseNode;
    var end := ")?" + rest;
    ParseClose(rest);
    ParseLit(end);
    assert "" + end == end;
    ParseOne("/" + end, Lit('/'), One, "", Eps, end, end);
  }

  lemma ParseClose(rest: string)
    ensures ParseItems(")?" + rest) == Some((Eps, ")?" + rest))
  {
  }

  lemma ParseLit(rest: string)
    ensures ParseNode("/" + rest) == Some((Lit('/'), rest))
  {
    assert ("/" + rest)[1..] == rest;
  }

  /** One atom with its mark, before anything that is not a mark. */
  lemma ParseOne(t: string, node: Node, rep: Rep, mark: string, more: Re, rest: string, end: string)
    requires |t| > 0 && t[0] != ')' && t[0] != '$'
    requires mark == (match rep case One => "" case Star => "*" case Opt => "?")
    requires ParseNode(t) == Some((node, mark + rest))
    requires |rest| > 0 && rest[0] != '*' && rest[0] != '?' && rest[0] != '+'
    requires ParseItems(rest) == Some((more, end))
    ensures ParseItems(t) == Some((Cat(node, rep, more), end))
  {
    hide ParseNode;
    if rep == One {
      assert mark + rest == rest;
    } else {
      assert (mark + rest)[1..] == rest;
    }
  }

  lemma ParseDirs(rest: string)
    ensures ParseNode("(?:.*/)?" + rest) == Some((DIRS, "?" + rest))
  {
    hide ParseItems;
    var t := "(?:.*/)?" + rest;
    assert t[3..] == ".*/)?" + rest;
    ParseDirsBody(rest);
    assert (")?" + rest)[1..] == "?" + rest;
  }

  lemma ParseCat(t: string, node: Node, rep: Rep, mark: string, more: Re, rest: string)
    requires |t| > 0 && t[0] != ')' && t[0] != '$'
    requires mark == (match rep case One => "" case Star => "*" case Opt => "?")
    requires ParseNode(t) == Some((node, mark + rest)) && StartsAtom(rest)
    requires ParseItems(rest) == Some((more, "$"))
    ensures ParseItems(t) == Some((Cat(node, rep, more), "$"))
  {
    hide ParseItems, ParseNode;
    ParseOne(t, node, rep, mark, more, rest, "$");
  }

  lemma {:induction false} ParseEmitted(p: string)
    ensures ParseItems(Emit(p) + "$") == Some((Items(p), "$"))
    decreases |p|
  {
    hide ParseItems, ParseNode, StartsAtom;
    EmitStartsAtom(p);
    var t := Emit(p) + "$";
    if |p| == 0 {
      assert t == "$";
      ParseEnd();
    } else if "**/" <= p {
      var rest := Emit(p[3..]) + "$";
      EmitStartsAtom(p[3..]);
      ParseEmitted(p[3..]);
      assert t == "(?:.*/)?" + rest;
      ParseDirs(rest);
      ParseCat(t, DIRS, Opt, "?", Items(p[3..]), rest);
    } else if "**" <= p {
      var rest := Emit(p[2..]) + "$";
      EmitStartsAtom(p[2..]);
      ParseEmitted(p[2..]);
      assert t == ".*" + rest;
      ParseDot(rest);
      ParseCat(t, Any, Star, "*", Items(p[2..]), rest);
    } else {
      var rest := Emit(p[1..]) + "$";
      EmitStartsAtom(p[1..]);
      ParseEmitted(p[1..]);
      ParseOther(p[0], rest);
      if p[0] == '*' {
        assert t == "[^/]*" + rest;
        ParseCat(t, NotSlash, Star, "*", Items(p[1..]), rest);
      } else if p[0] == '?' {
        assert t == "[^/]" + rest;
        ParseCat(t, NotSlash, One, "", Items(p[1..]), rest);
      } else {
        assert t == Quote(p[0]) + rest;
        ParseCat(t, Lit(p[0]), One, "", Items(p[1..]), rest);
      }
    }
  }

  lemma ParseEnd()
    ensures ParseItems("$") == Some((Eps, "$"))
  {
  }

  lemma ParseDot(rest: string)
    ensures ParseNode(".*" + rest) == Some((Any, "*" + rest))
  {
    assert (".*" + rest)[1..] == "*" + rest;
  }

  lemma ParseOther(c: char, rest: string)
    ensures ParseNode("[^/]*" + rest) == Some((NotSlash, "*" + rest))
    ensures ParseNode("[^/]" + rest) == Some((NotSlash, "" + rest))
    ensures ParseNode(Quote(c) + rest) == Some((Lit(c), "" + rest))
  {
    assert ("[^/]*" + rest)[4..] == "*" + rest;
    assert ("[^/]" + rest)[4..] == rest;
    assert "" + rest == rest;
    var t := Quote(c) + rest;
    if Meta(c) {
      assert t[2..] == rest;
    } else {
      assert t[1..] == rest;
    }
  }

  // ---- The meaning is preserved

  lemma {:induction false} StarOfClass(n: Node, s: string)
    requires n == Any || n == NotSlash
    ensures Repeats(n, Star, s) <==> forall i :: 0 <= i < |s| ==> s[i] != (if n == Any then '\n' else '/')
    decreases |s|
  {
    if |s| > 0 {
      StarOfClass(n, s[1..]);
      assert s[..1] == [s[0]];
      if Repeats(n, Star, s) {
        var k :| 0 < k <= |s| && Once(n, s[..k]) && Repeats(n, Star, s[k..]);
        assert k == 1;
      }
      if forall i :: 0 <= i < |s| ==> s[i] != (if n == Any then '\n' else '/') {
        assert Once(n, s[..1]);
      }
    }
  }

  lemma SlashMatches(u: string)
    ensures Matches(SLASH, u) <==> u == "/"
  {
    if Matches(SLASH, u) {
      var k :| 0 <= k <= |u| && Repeats(Lit('/'), One, u[..k]) && Matches(Eps, u[k..]);
      assert Once(Lit('/'), u[..k]);
      assert u == u[..k];
    }
    if u == "/" {
      assert u[..1] == "/" && u[1..] == "";
      assert Repeats(Lit('/'), One, u[..1]) && Matches(Eps, u[1..]);
    }
  }

  lemma DirsBody(s: string)
    ensures Matches(Cat(Any, Star, SLASH), s) <==>
              |s| > 0 && s[|s| - 1] == '/' && forall i :: 0 <= i < |s| - 1 ==> s[i] != '\n'
  {
    hide Repeats;
    if |s| > 0 {
      var k := |s| - 1;
      SlashMatches(s[k..]);
      StarOfClass(Any, s[..k]);
      if s[k] == '/' && forall i :: 0 <= i < k ==> s[i] != '\n' {
        assert s[k..] == "/";
        assert Repeats(Any, Star, s[..k]) && Matches(SLASH, s[k..]);
      }
    }
    if Matches(Cat(Any, Star, SLASH), s) {
      var j :| 0 <= j <= |s| && Repeats(Any, Star, s[..j]) && Matches(SLASH, s[j..]);
      SlashMatches(s[j..]);
      StarOfClass(Any, s[..j]);
      assert j == |s| - 1 && s[j] == s[j..][0];
    }
  }

  /** The optional group: nothing, or a newline-free stretch ending in a slash. */
  lemma OptionalDirs(s: string)
    ensures Repeats(DIRS, Opt, s) <==>
              |s| == 0 || (s[|s| - 1] == '/' && forall i :: 0 <= i < |s| - 1 ==> s[i] != '\n')
  {
    DirsBody(s);
    hide Matches;
  }

  lemma GlobStarStep(p: string, n: string)
    requires |p| > 0 && p[0] == '*' && !("**" <= p)
    ensures GlobMatch(p, n) <==> GlobMatch(p[1..], n) || (|n| > 0 && n[0] != '/' && GlobMatch(p, n[1..]))
  {
  }

  lemma {:induction false} GlobStar(p: string, n: string)
    requires |p| > 0 && p[0] == '*' && !("**" <= p)
    ensures GlobMatch(p, n) <==>
              exists k :: 0 <= k <= |n| && (forall i :: 0 <= i < k ==> n[i] != '/') && GlobMatch(p[1..], n[k..])
    decreases |n|
  {
    hide GlobMatch;
    GlobStarStep(p, n);
    assert n[0..] == n;
    if |n| > 0 {
      GlobStar(p, n[1..]);
      forall k | 0 <= k <= |n[1..]| ensures n[1..][k..] == n[k + 1..] {}
      if n[0] != '/' && GlobMatch(p, n[1..]) {
        var k :| 0 <= k <= |n[1..]| && (forall i :: 0 <= i < k ==> n[1..][i] != '/') && GlobMatch(p[1..], n[1..][k..]);
        assert GlobMatch(p[1..], n[k + 1..]);
        assert forall i :: 0 <= i < k + 1 ==> n[i] != '/' by {
          forall i | 0 < i < k + 1 ensures n[i] != '/' { assert n[1..][i - 1] != '/'; }
        }
      }
      if k :| 0 < k <= |n| && (forall i :: 0 <= i < k ==> n[i] != '/') && GlobMatch(p[1..], n[k..]) {
        assert n[1..][k - 1..] == n[k..];
        assert GlobMatch(p[1..], n[1..][k - 1..]);
        assert forall i :: 0 <= i < k - 1 ==> n[1..][i] == n[i + 1];
      }
    }
  }

  lemma {:induction false} GlobDoubleStar(p: string, n: string)
    requires "**" <= p && !("**/" <= p)
    ensures GlobMatch(p, n) <==> exists k :: 0 <= k <= |n| && GlobMatch(p[2..], n[k..])
    decreases |n|
  {
    assert n[0..] == n;
    if |n| > 0 {
      GlobDoubleStar(p, n[1..]);
      if GlobMatch(p, n[1..]) {
        var k :| 0 <= k <= |n[1..]| && GlobMatch(p[2..], n[1..][k..]);
        assert n[1..][k..] == n[k + 1..];
      }
      if k :| 0 < k <= |n| && GlobMatch(p[2..], n[k..]) {
        assert n[1..][k - 1..] == n[k..];
      }
    }
  }

  predicate HasDoubleStar(p: string) { |p| > 0 && ("**" <= p || HasDoubleStar(p[1..])) }

  predicate OneLine(n: string) { '\n' !in n }

  lemma DirsStep(p: string, n: string)
    requires "**/" <= p && OneLine(n)
    requires forall m: string :: OneLine(m) ==> (Matches(Items(p[3..]), m) <==> GlobMatch(p[3..], m))
    ensures Matches(Items(p), n) <==> GlobMatch(p, n)
  {
    assert n[0..] == n;
    if GlobMatch(p, n) {
      if GlobMatch(p[3..], n) {
        OptionalDirs(n[..0]);
        assert Repeats(DIRS, Opt, n[..0]) && Matches(Items(p[3..]), n[0..]);
      } else {
        var i :| 0 <= i < |n| && n[i] == '/' && GlobMatch(p[3..], n[i + 1..]);
        OptionalDirs(n[..i + 1]);
        assert Repeats(DIRS, Opt, n[..i + 1]) && Matches(Items(p[3..]), n[i + 1..]);
      }
    }
    if Matches(Items(p), n) {
      var k :| 0 <= k <= |n| && Repeats(DIRS, Opt, n[..k]) && Matches(Items(p[3..]), n[k..]);
      OptionalDirs(n[..k]);
      if k > 0 {
        assert n[k - 1] == '/' && GlobMatch(p[3..], n[k - 1 + 1..]);
      }
    }
  }

  lemma ClassStep(p: string, q: string, node: Node, n: string)
    requires (node == Any && "**" <= p && !("**/" <= p) && q == p[2..])
               || (node == NotSlash && |p| > 0 && p[0] == '*' && !("**" <= p) && q == p[1..])
    requires node == Any ==> OneLine(n)
    requires forall k :: 0 <= k <= |n| ==> (Matches(Items(q), n[k..]) <==> GlobMatch(q, n[k..]))
    ensures Matches(Items(p), n) <==> GlobMatch(p, n)
  {
    assert Items(p) == Cat(node, Star, Items(q));
    forall k | 0 <= k <= |n|
      ensures Repeats(node, Star, n[..k]) <==> node == Any || forall i :: 0 <= i < k ==> n[i] != '/'
    {
      StarOfClass(node, n[..k]);
      assert forall i :: 0 <= i < k ==> n[..k][i] == n[i];
    }
    if node == Any {
      GlobDoubleStar(p, n);
    } else {
      GlobStar(p, n);
    }
  }

  lemma OneStep(p: string, n: string)
    requires |p| > 0 && p[0] != '*'
    requires |n| > 0 ==> (Matches(Items(p[1..]), n[1..]) <==> GlobMatch(p[1..], n[1..]))
    ensures Matches(Items(p), n) <==> GlobMatch(p, n)
  {
    hide Matches, Repeats;
    var node := if p[0] == '?' then NotSlash else Lit(p[0]);
    assert Items(p) == Cat(node, One, Items(p[1..]));
    CharThenRest(node, Items(p[1..]), n);
  }

  lemma CharThenRest(node: Node, rest: Re, n: string)
    requires !node.Group?
    ensures Matches(Cat(node, One, rest), n) <==> |n| > 0 && Once(node, [n[0]]) && Matches(rest, n[1..])
  {
    if |n| > 0 {
      assert n[..1] == [n[0]];
      if Once(node, [n[0]]) && Matches(rest, n[1..]) {
        assert Repeats(node, One, n[..1]) && Matches(rest, n[1..]);
      }
    }
    if Matches(Cat(node, One, rest), n) {
      var k :| 0 <= k <= |n| && Repeats(node, One, n[..k]) && Matches(rest, n[k..]);
      assert Once(node, n[..k]);
      assert |n[..k]| == 1;
    }
  }

  /** The compiled items match what the glob matches, on names without a newline. */
  lemma {:induction false} ItemsMeanGlob(p: string, n: string)
    requires OneLine(n)
    ensures Matches(Items(p), n) <==> GlobMatch(p, n)
    decreases |p|
  {
    if |p| == 0 {
    } else if "**/" <= p {
      forall m: string | OneLine(m) ensures Matches(Items(p[3..]), m) <==> GlobMatch(p[3..], m) {
        ItemsMeanGlob(p[3..], m);
      }
      DirsStep(p, n);
    } else if p[0] == '*' {
      var node, q := if "**" <= p then Any else NotSlash, if "**" <= p then p[2..] else p[1..];
      forall k | 0 <= k <= |n| ensures Matches(Items(q), n[k..]) <==> GlobMatch(q, n[k..]) { ItemsMeanGlob(q, n[k..]); }
      ClassStep(p, q, node, n);
    } else {
      if |n| > 0 {
        ItemsMeanGlob(p[1..], n[1..]);
      }
      OneStep(p, n);
    }
  }

  ghost predicate Accepts(text: string, n: string) { Parse(text).Some? && Matches(Parse(text).value, n) }

  /** Compilation preserves meaning: the text is a regular expression for every pattern, runs of stars
      included, and accepts a one-line name exactly when the glob matches it. */
  lemma CompiledMeansGlob(pattern: string, n: string)
    ensures Parse("^" + Emit(pattern) + "$").Some?
    ensures OneLine(n) ==> (Accepts("^" + Emit(pattern) + "$", n) <==> GlobMatch(pattern, n))
  {
    var text := "^" + Emit(pattern) + "$";
    assert text[1..] == Emit(pattern) + "$";
    ParseEmitted(pattern);
    if OneLine(n) {
      ItemsMeanGlob(pattern, n);
    }
  }

  // ---- Names with a newline

  /** Without a double star the agreement needs no condition on the name. */
  lemma {:induction false} PlainItemsMeanGlob(p: string, n: string)
    requires !HasDoubleStar(p)
    ensures Matches(Items(p), n) <==> GlobMatch(p, n)
    decreases |p|
  {
    if |p| == 0 {
    } else if p[0] == '*' {
      forall k | 0 <= k <= |n| ensures Matches(Items(p[1..]), n[k..]) <==> GlobMatch(p[1..], n[k..]) {
        PlainItemsMeanGlob(p[1..], n[k..]);
      }
      ClassStep(p, p[1..], NotSlash, n);
    } else {
      if |n| > 0 {
        PlainItemsMeanGlob(p[1..], n[1..]);
      }
      OneStep(p, n);
    }
  }

  /** How many of the pieces between slashes hold a newline; `seen` if the first piece is known to. */
  function Stained(s: string, seen: bool): nat {
    if |s| == 0 then 0
    else if s[0] == '/' then Stained(s[1..], false)
    else if s[0] == '\n' then (if seen then 0 else 1) + Stained(s[1..], true)
    else Stained(s[1..], seen)
  }

  lemma {:induction false} StainedSeen(s: string)
    ensures Stained(s, true) <= Stained(s, false) <= Stained(s, true) + 1
  {
    if |s| > 0 {
      StainedSeen(s[1..]);
    }
  }

  lemma {:induction false} StainedConcat(u: string, v: string, seen: bool)
    ensures Stained(u + v, seen) <= Stained(u, seen) + Stained(v, false)
  {
    if |u| == 0 {
      assert u + v == v;
      StainedSeen(v);
    } else {
      assert (u + v)[1..] == u[1..] + v;
      StainedConcat(u[1..], v, if u[0] == '/' then false else seen || u[0] == '\n');
    }
  }

  /** A stretch without a slash is one piece, and one without a newline has no stain. */
  lemma {:induction false} StainedClass(s: string, seen: bool)
    ensures '/' !in s ==> Stained(s, seen) <= if seen then 0 else 1
    ensures '\n' !in s ==> Stained(s, seen) == 0
  {
    if |s| > 0 {
      assert s == [s[0]] + s[1..];
      StainedClass(s[1..], if s[0] == '/' then false else seen || s[0] == '\n');
    }
  }

  /** What one item of a compiled pattern can match has at most one stained piece: a class that matches newlines
      matches no slash. */
  lemma ItemStain(node: Node, rep: Rep, s: string)
    requires (node == DIRS && rep == Opt) || (node == Any && rep == Star) || (node == NotSlash && rep != Opt)
               || (node.Lit? && rep == One)
    requires Repeats(node, rep, s)
    ensures Stained(s, false) <= 1
  {
    StainedClass(s, false);
    if node == DIRS {
      OptionalDirs(s);
      if |s| > 0 {
        assert forall i :: 0 <= i < |s| ==> s[i] != '\n';
      }
    } else if rep == Star {
      StarOfClass(node, s);
    } else {
      assert Once(node, s);
    }
  }

  lemma {:induction false} MatchedStains(p: string, n: string)
    requires Matches(Items(p), n)
    ensures Stained(n, false) <= |p|
    decreases |p|
  {
    if |p| > 0 {
      var q := if "**/" <= p then p[3..] else if "**" <= p then p[2..] else p[1..];
      var node := if "**/" <= p then DIRS else if "**" <= p then Any else if p[0] == '*' || p[0] == '?' then NotSlash
          else Lit(p[0]);
      var rep := if "**/" <= p then Opt else if p[0] == '*' then Star else One;
      assert Items(p) == Cat(node, rep, Items(q));
      var k :| 0 <= k <= |n| && Repeats(node, rep, n[..k]) && Matches(Items(q), n[k..]);
      ItemStain(node, rep, n[..k]);
      MatchedStains(q, n[k..]);
      StainedConcat(n[..k], n[k..], false);
      assert n == n[..k] + n[k..];
    }
  }

  function Lines(k: nat): string { if k == 0 then "" else "\n/" + Lines(k - 1) }

  /** A name the glob matches, with `k` stained pieces wherever the pattern has a double star. */
  function Witness(p: string, k: nat): string {
    if |p| == 0 then ""
    else if "**/" <= p then Lines(k) + Witness(p[3..], k)
    else if "**" <= p then Lines(k) + Witness(p[2..], k)
    else if p[0] == '*' then Witness(p[1..], k)
    else if p[0] == '?' then "x" + Witness(p[1..], k)
    else [p[0]] + Witness(p[1..], k)
  }

  lemma {:induction false} LinesStain(k: nat, rest: string, seen: bool)
    ensures |Lines(k)| == 2 * k && (k > 0 ==> Lines(k)[2 * k - 1] == '/')
    ensures Stained(Lines(k) + rest, seen) + 1 >= k
    ensures !seen ==> Stained(Lines(k) + rest, seen) >= k
    decreases k
  {
    if k > 0 {
      LinesStain(k - 1, rest, false);
      var s := Lines(k) + rest;
      assert s[1..] == "/" + Lines(k - 1) + rest && s[1..][1..] == Lines(k - 1) + rest;
    }
  }

  lemma {:induction false} WitnessMatches(p: string, k: nat)
    requires k > 0
    ensures GlobMatch(p, Witness(p, k))
    decreases |p|
  {
    var n := Witness(p, k);
    if |p| == 0 {
    } else if "**/" <= p {
      WitnessMatches(p[3..], k);
      LinesStain(k, "", false);
      assert n[2 * k - 1] == '/' && n[2 * k - 1 + 1..] == Witness(p[3..], k);
    } else if "**" <= p {
      WitnessMatches(p[2..], k);
      LinesStain(k, "", false);
      assert n[2 * k..] == Witness(p[2..], k);
      GlobDoubleStar(p, n);
    } else {
      WitnessMatches(p[1..], k);
      if p[0] == '*' {
        GlobStar(p, n);
        assert n[0..] == n;
      } else {
        assert n[1..] == Witness(p[1..], k);
      }
    }
  }

  lemma {:induction false} WitnessStains(p: string, k: nat, seen: bool)
    requires HasDoubleStar(p)
    ensures Stained(Witness(p, k), seen) + 1 >= k
    decreases |p|
  {
    if "**/" <= p {
      LinesStain(k, Witness(p[3..], k), seen);
    } else if "**" <= p {
      LinesStain(k, Witness(p[2..], k), seen);
    } else if p[0] == '*' {
      WitnessStains(p[1..], k, seen);
    } else {
      var c := if p[0] == '?' then 'x' else p[0];
      WitnessStains(p[1..], k, if c == '/' then false else seen || c == '\n');
      assert Witness(p, k)[1..] == Witness(p[1..], k);
    }
  }

  /** Exactly which patterns keep their meaning on every name, newlines included: those without a double star. A
      pattern with one is told apart from its glob by some name with newlines. */
  lemma MeaningKeptIff(pattern: string)
    ensures (forall n :: Accepts("^" + Emit(pattern) + "$", n) <==> GlobMatch(pattern, n)) <==> !HasDoubleStar(pattern)
  {
    hide Matches, GlobMatch, Items;
    var text := "^" + Emit(pattern) + "$";
    assert text[1..] == Emit(pattern) + "$";
    ParseEmitted(pattern);
    assert forall n :: Accepts(text, n) <==> Matches(Items(pattern), n);
    if HasDoubleStar(pattern) {
      var k := |pattern| + 2;
      var n := Witness(pattern, k);
      WitnessMatches(pattern, k);
      WitnessStains(pattern, k, false);
      if Matches(Items(pattern), n) {
        MatchedStains(pattern, n);
      }
      assert GlobMatch(pattern, n) && !Accepts(text, n);
    } else {
      forall n ensures Accepts(text, n) <==> GlobMatch(pattern, n) {
        PlainItemsMeanGlob(pattern, n);
      }
    }
  }

  // ---- Patterns without a slash

  function Base(f: string): string
    decreases |f|
  {
    if |f| == 0 then "" else if f[|f| - 1] == '/' then "" else Base(f[..|f| - 1]) + [f[|f| - 1]]
  }

  /** The name the tool hands to the matcher for a tracked file. */
  function Subject(pattern: string, f: string): string { if '/' !in pattern then Base(f) else f }

  lemma {:induction false} BaseIsTail(f: string)
    ensures |Base(f)| <= |f| && Base(f) == f[|f| - |Base(f)|..] && '/' !in Base(f)
    ensures |Base(f)| < |f| ==> f[|f| - |Base(f)| - 1] == '/'
    decreases |f|
  {
    if |f| > 0 && f[|f| - 1] != '/' {
      var front, last := f[..|f| - 1], f[|f| - 1];
      BaseIsTail(front);
      assert f == front + [last];
      assert f[|f| - |Base(f)|..] == front[|front| - |Base(front)|..] + [last];
    }
  }

  lemma {:induction false} FlatPatternFlatName(p: string, n: string)
    requires '/' !in p && !HasDoubleStar(p) && GlobMatch(p, n)
    ensures '/' !in n
    decreases |p|, |n|
  {
    if |p| > 0 {
      if p[0] == '*' {
        if GlobMatch(p[1..], n) {
          FlatPatternFlatName(p[1..], n);
        } else {
          FlatPatternFlatName(p, n[1..]);
          assert n == [n[0]] + n[1..];
        }
      } else {
        FlatPatternFlatName(p[1..], n[1..]);
        assert n == [n[0]] + n[1..];
        assert p[0] in p;
      }
    }
  }

  /** A pattern with no slash and no `**` finds a file at any depth: it matches the base name exactly when
      the pattern behind a leading double star and slash matches the whole path. */
  lemma BaseNameAtAnyDepth(p: string, f: string)
    requires '/' !in p && !HasDoubleStar(p)
    ensures GlobMatch(p, Subject(p, f)) <==> GlobMatch("**/" + p, f)
  {
    var q := "**/" + p;
    assert q[3..] == p;
    BaseIsTail(f);
    var cut := |f| - |Base(f)|;
    if GlobMatch(p, Base(f)) {
      if cut == 0 {
        assert Base(f) == f;
      } else {
        assert f[cut - 1] == '/' && f[cut - 1 + 1..] == Base(f);
      }
    }
    if GlobMatch(q, f) {
      if GlobMatch(p, f) {
        FlatPatternFlatName(p, f);
        assert f[0..] == f;
        BaseUnique(f, 0);
      } else {
        var i :| 0 <= i < |f| && f[i] == '/' && GlobMatch(p, f[i + 1..]);
        FlatPatternFlatName(p, f[i + 1..]);
        BaseUnique(f, i + 1);
      }
    }
  }

  lemma {:induction false} BaseUnique(f: string, k: nat)
    requires k <= |f| && '/' !in f[k..] && (k > 0 ==> f[k - 1] == '/')
    ensures Base(f) == f[k..]
    decreases |f|
  {
    if k < |f| {
      var g := f[..|f| - 1];
      assert f[k..] == g[k..] + [f[|f| - 1]];
      BaseUnique(g, k);
    }
  }

  // ---- The tool: tracked files that match

  /** What is left of a listed name, if anything, when the expression accepts its subject. */
  function Found(pattern: string, names: seq<string>, accepts: string -> bool): seq<string> {
    if |names| == 0 then []
    else
      var f := TrimSpace(names[|names| - 1]);
      Found(pattern, names[..|names| - 1], accepts)
      + (if f != "" && accepts(Subject(pattern, f)) then [f] else [])
  }

  /** `names` is the listing between its NULs, `compile` the regular expression engine. */
  method FindFiles(pattern: string, names: seq<string>, compile: string -> (string -> bool))
    returns (matched: seq<string>)
    ensures matched == Found(pattern, names, compile("^" + Emit(pattern) + "$"))
  {
    hide TrimSpace, Emit;
    var text, basenameOnly := GlobToRegexp(pattern);
    var re := compile(text);
    matched := [];
    for i := 0 to |names|
      invariant matched == Found(pattern, names[..i], re)
    {
      assert names[..i + 1][..i] == names[..i];
      var f := TrimSpace(names[i]);
      if f == "" {
        continue;
      }
      var name := Base(f);
      if !basenameOnly {
        name := f;
      }
      if re(name) {
        matched := matched + [f];
      }
    }
    assert names[..|names|] == names;
  }

  /** The glob matches a file: its whole path, or, for a pattern without a slash, what follows its last one. */
  ghost predicate Finds(pattern: string, f: string) {
    if '/' in pattern then GlobMatch(pattern, f)
    else exists k :: 0 <= k <= |f| && (k > 0 ==> f[k - 1] == '/') && '/' !in f[k..] && GlobMatch(pattern, f[k..])
  }

  lemma SubjectFinds(pattern: string, f: string)
    ensures GlobMatch(pattern, Subject(pattern, f)) <==> Finds(pattern, f)
  {
    hide GlobMatch, Base;
    BaseIsTail(f);
    var cut := |f| - |Base(f)|;
    if '/' !in pattern && Finds(pattern, f) {
      var k :| 0 <= k <= |f| && (k > 0 ==> f[k - 1] == '/') && '/' !in f[k..] && GlobMatch(pattern, f[k..]);
    }
  }

  /** With an engine that compiles by the syntax of regular expressions, the tool lists, in the order of the listing,
      every tracked file that the glob matches and no other, file names being of one line. */
  lemma {:induction false} FoundExactly(pattern: string, names: seq<string>, accepts: string -> bool)
    returns (at: seq<nat>)
    requires forall n :: accepts(n) <==> Accepts("^" + Emit(pattern) + "$", n)
    requires forall name :: name in names ==> '\n' !in TrimSpace(name)
    ensures |at| == |Found(pattern, names, accepts)|
    ensures forall k :: 0 <= k < |at| ==>
              at[k] < |names| && Found(pattern, names, accepts)[k] == TrimSpace(names[at[k]])
    ensures forall j, k :: 0 <= j < k < |at| ==> at[j] < at[k]
    ensures forall i: nat :: i in at <==>
              i < |names| && TrimSpace(names[i]) != "" && Finds(pattern, TrimSpace(names[i]))
  {
    hide GlobMatch, Finds, Emit, Accepts, Subject, TrimSpace;
    at := [];
    if |names| > 0 {
      var n := |names| - 1;
      at := FoundExactly(pattern, names[..n], accepts);
      var f := TrimSpace(names[n]);
      assert names[n] in names;
      SubjectOneLine(pattern, f);
      CompiledMeansGlob(pattern, Subject(pattern, f));
      SubjectFinds(pattern, f);
      if f != "" && accepts(Subject(pattern, f)) {
        at := at + [n];
      }
    }
  }

  lemma SubjectOneLine(pattern: string, f: string)
    requires '\n' !in f
    ensures '\n' !in Subject(pattern, f)
  {
    BaseIsTail(f);
  }
}
