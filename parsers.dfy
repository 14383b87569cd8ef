/** The parser-combinator engine the JSON grammar is built from.

    A cursor is represented by the unconsumed suffix of the input: a parser
    that "consumed" input returns a strictly shorter suffix. Every parser is
    a total function from the remaining input to a `Reply`. */
module Parsers {
  import opened Wrappers

  /** The reply of a parser: success with the remaining input and the output,
      or failure with the input at the failing position, the stack of context
      labels (outermost first) and the name of the primitive that failed. */
  datatype Reply<+T> =
    | Done(remaining: seq<char>, output: T)
    | Fail(remaining: seq<char>, contexts: seq<string>, message: string)

  type Parser<T> = seq<char> -> Reply<T>

  /** `r` is what is left of `s` after consuming a prefix of it. */
  predicate IsSuffix(r: seq<char>, s: seq<char>)
  {
    |r| <= |s| && EndsWith(s, r)
  }

  /** `r` is `s` with some first characters dropped, one at a time. */
  predicate EndsWith(s: seq<char>, r: seq<char>)
    decreases |s|
  {
    r == s || (|r| < |s| && EndsWith(s[1..], r))
  }

  /** A parser never invents input: whatever it replies, the remaining input
      is a suffix of what it was given. */
  ghost predicate Shrinking<T>(p: Parser<T>)
  {
    forall s :: IsSuffix(p(s).remaining, s)
  }

  /** A parser consumes at least one character whenever it succeeds. */
  ghost predicate Advancing<T>(p: Parser<T>)
  {
    forall s :: p(s).Done? ==> |p(s).remaining| < |s|
  }

  ghost predicate WellBehaved<T>(p: Parser<T>)
  {
    Shrinking(p) && Advancing(p)
  }

  /** Runs a parser on a text (`parse(p, text)`). */
  function Parse<T>(p: Parser<T>, text: seq<char>): Reply<T>
  {
    p(text)
  }

  // ---------------------------------------------------------------------------
  // Primitives

  /** Consumes one character when `pred` holds of it; otherwise fails with
      message "satisfy" at the input position, consuming nothing. */
  function Satisfy(pred: char -> bool): Parser<char>
  {
    s => SatisfyAt(pred, s)
  }

  /** The reply of `satisfy(pred)` at input `s`. */
  function SatisfyAt(pred: char -> bool, s: seq<char>): (r: Reply<char>)
    ensures IsSuffix(r.remaining, s)
    ensures r.Done? ==> |r.remaining| == |s| - 1
  {
    if |s| > 0 && pred(s[0]) then Done(s[1..], s[0]) else Fail(s, [], "satisfy")
  }

  /** `char(c)`: `satisfy` with the predicate "equals `c`". */
  function Char(c: char): Parser<char>
  {
    Satisfy(x => x == c)
  }

  /** The reply of `char(c)` at input `s`. */
  function CharAt(c: char, s: seq<char>): (r: Reply<char>)
    ensures IsSuffix(r.remaining, s)
    ensures r.Done? ==> |r.remaining| == |s| - 1
  {
    if |s| > 0 && s[0] == c then Done(s[1..], c) else Fail(s, [], "satisfy")
  }

  /** `char(c)` consumes exactly the first character when it is `c`, and
      otherwise fails with "satisfy" without consuming anything. */
  lemma CharSpec(c: char, s: seq<char>)
    ensures Char(c)(s) == CharAt(c, s)
    ensures Char(c)(s).Done? <==> |s| > 0 && s[0] == c
    ensures Char(c)(s).Done? ==> Char(c)(s) == Done(s[1..], c)
    ensures Char(c)(s).Fail? ==> Char(c)(s) == Fail(s, [], "satisfy")
  {
  }

  /** Always succeeds with `x`, consuming nothing. */
  function Pure<T>(x: T): Parser<T>
  {
    s => Done(s, x)
  }

  /** Succeeds, consuming nothing, exactly at the end of the input. */
  function EndOfInput(): Parser<()>
  {
    s => if s == [] then Done(s, ()) else Fail(s, [], "endOfInput")
  }

  /** `endOfInput` succeeds exactly on the empty input, and otherwise fails
      with "endOfInput" without consuming anything. */
  lemma EndOfInputSpec(s: seq<char>)
    ensures EndOfInput()(s).Done? <==> s == []
    ensures EndOfInput()(s).remaining == s
    ensures EndOfInput()(s).Fail? ==> EndOfInput()(s) == Fail(s, [], "endOfInput")
  {
  }

  // ---------------------------------------------------------------------------
  // Literal strings

  /** Matches the characters of `lit` one by one with `Char`; a mismatch fails
      where it happens, keeping the matched prefix consumed. */
  function StrAt(lit: string, s: seq<char>): Reply<string>
    decreases |lit|
  {
    if lit == [] then Done(s, [])
    else
      match CharAt(lit[0], s)
      case Fail(r, c, m) => Fail(r, c, m)
      case Done(rest, _) =>
        match StrAt(lit[1..], rest)
        case Fail(r, c, m) => Fail(r, c, m)
        case Done(rest', _) => Done(rest', lit)
  }

  function Str(lit: string): Parser<string>
  {
    s => StrAt(lit, s)
  }

  /** The length of the longest common prefix of `a` and `b`. */
  function CommonPrefix(a: seq<char>, b: seq<char>): (n: nat)
    ensures n <= |a| && n <= |b|
    ensures a[..n] == b[..n]
    ensures n < |a| && n < |b| ==> a[n] != b[n]
  {
    if |a| == 0 || |b| == 0 || a[0] != b[0] then 0
    else
      var n := CommonPrefix(a[1..], b[1..]);
      assert a[..n + 1] == [a[0]] + a[1..][..n];
      assert b[..n + 1] == [b[0]] + b[1..][..n];
      n + 1
  }

  lemma {:induction false} StrAtDone(lit: string, s: seq<char>)
    requires lit <= s
    ensures StrAt(lit, s) == Done(s[|lit|..], lit)
    decreases |lit|
  {
    if lit != [] {
      assert CharAt(lit[0], s) == Done(s[1..], s[0]);
      StrAtDone(lit[1..], s[1..]);
      assert s[1..][|lit| - 1..] == s[|lit|..];
    }
  }

  lemma {:induction false} StrAtFail(lit: string, s: seq<char>)
    requires !(lit <= s)
    ensures StrAt(lit, s) == Fail(s[CommonPrefix(lit, s)..], [], "satisfy")
    decreases |lit|
  {
    if |s| > 0 && s[0] == lit[0] {
      assert CharAt(lit[0], s) == Done(s[1..], s[0]);
      assert !(lit[1..] <= s[1..]);
      StrAtFail(lit[1..], s[1..]);
      var n := CommonPrefix(lit[1..], s[1..]);
      assert CommonPrefix(lit, s) == n + 1;
      assert s[1..][n..] == s[n + 1..];
    } else {
      assert CharAt(lit[0], s) == Fail(s, [], "satisfy");
      assert CommonPrefix(lit, s) == 0;
    }
  }

  /** `string(lit)` succeeds exactly when `lit` is a prefix of the input and
      then consumes it; otherwise it fails with "satisfy" at the first
      mismatching position, the matched prefix consumed. */
  lemma StrSpec(lit: string, s: seq<char>)
    ensures Str(lit)(s).Done? <==> lit <= s
    ensures lit <= s ==> Str(lit)(s) == Done(s[|lit|..], lit)
    ensures !(lit <= s) ==>
      Str(lit)(s) == Fail(s[CommonPrefix(lit, s)..], [], "satisfy")
    ensures IsSuffix(Str(lit)(s).remaining, s)
  {
    if lit <= s {
      StrAtDone(lit, s);
      DropIsSuffix(s, |lit|);
    } else {
      StrAtFail(lit, s);
      DropIsSuffix(s, CommonPrefix(lit, s));
    }
  }

  // ---------------------------------------------------------------------------
  // Mapping and sequencing

  function Map<T, U>(p: Parser<T>, f: T -> U): Parser<U>
  {
    s => match p(s)
         case Done(r, x) => Done(r, f(x))
         case Fail(r, c, m) => Fail(r, c, m)
  }

  /** Runs `p`, then `q` on what `p` left, pairing the outputs; the first
      failure is propagated untouched. */
  function Seq<T, U>(p: Parser<T>, q: Parser<U>): Parser<(T, U)>
  {
    s => match p(s)
         case Fail(r, c, m) => Fail(r, c, m)
         case Done(r, x) =>
           match q(r)
           case Fail(r', c, m) => Fail(r', c, m)
           case Done(r', y) => Done(r', (x, y))
  }

  /** `p *> q`: sequence, keeping the output of `q`. */
  function Then<T, U>(p: Parser<T>, q: Parser<U>): Parser<U>
  {
    Map(Seq(p, q), (xy: (T, U)) => xy.1)
  }

  /** `p <* q`: sequence, keeping the output of `p`. */
  function Skip<T, U>(p: Parser<T>, q: Parser<U>): Parser<T>
  {
    Map(Seq(p, q), (xy: (T, U)) => xy.0)
  }

  /** `open *> p <* close`. */
  function Between<A, T, B>(open: Parser<A>, p: Parser<T>, close: Parser<B>): Parser<T>
  {
    Skip(Then(open, p), close)
  }

  /** `f <^> p` replies as `p` does, at the same place and with the same
      failure, only with `f` applied to a successful output. */
  lemma MapSpec<T, U>(p: Parser<T>, f: T -> U, s: seq<char>)
    ensures Map(p, f)(s).Done? <==> p(s).Done?
    ensures Map(p, f)(s).remaining == p(s).remaining
    ensures p(s).Done? ==> Map(p, f)(s).output == f(p(s).output)
    ensures p(s).Fail? ==> Map(p, f)(s) == Fail(p(s).remaining, p(s).contexts, p(s).message)
  {
  }

  /** `open *> p <* close` fails at the first of the three that fails, and
      otherwise keeps the output of `p` and what `close` left. */
  lemma BetweenSpec<A, T, B>(open: Parser<A>, p: Parser<T>, close: Parser<B>, s: seq<char>)
    ensures Between(open, p, close)(s) ==
      match open(s)
      case Fail(r, c, m) => Fail(r, c, m)
      case Done(s1, _) =>
        match p(s1)
        case Fail(r, c, m) => Fail(r, c, m)
        case Done(s2, x) =>
          match close(s2)
          case Fail(r, c, m) => Fail(r, c, m)
          case Done(s3, _) => Done(s3, x)
  {
  }

  // ---------------------------------------------------------------------------
  // Choice and backtracking

  /** The reply of `p1 <|> p2` at input `s`, given the replies `r1` of `p1`
      and `r2` of `p2` there: the second alternative is taken only when the
      first failed without consuming input. */
  function Alt<T>(s: seq<char>, r1: Reply<T>, r2: Reply<T>): (r: Reply<T>)
    ensures r == r1 || r == r2
  {
    if r1.Fail? && |r1.remaining| == |s| then r2 else r1
  }

  function OrElse<T>(p: Parser<T>, q: Parser<T>): Parser<T>
  {
    s => Alt(s, p(s), q(s))
  }

  /** Alternation keeps a success of the first branch, retries from the
      original input only after a failure that consumed nothing, and
      otherwise propagates the first branch's failure. */
  lemma OrElseSpec<T>(p: Parser<T>, q: Parser<T>, s: seq<char>)
    requires IsSuffix(p(s).remaining, s)
    ensures p(s).Done? ==> OrElse(p, q)(s) == p(s)
    ensures p(s).Fail? && p(s).remaining == s ==> OrElse(p, q)(s) == q(s)
    ensures p(s).Fail? && p(s).remaining != s ==> OrElse(p, q)(s) == p(s)
  {
  }

  /** `try p`: a failure of `p` is reported at the input it started from, so
      that a following alternative is retried there. */
  function Try<T>(p: Parser<T>): Parser<T>
  {
    s => match p(s)
         case Done(r, x) => Done(r, x)
         case Fail(_, c, m) => Fail(s, c, m)
  }

  /** A failure under `try` is reported where `p` started; successes are unchanged. */
  lemma TrySpec<T>(p: Parser<T>, s: seq<char>)
    ensures p(s).Done? ==> Try(p)(s) == p(s)
    ensures p(s).Fail? ==> Try(p)(s) == Fail(s, p(s).contexts, p(s).message)
  {
  }

  /** `try p <|> q` is `p` where `p` succeeds and `q` wherever `p` fails,
      however much `p` consumed before failing. */
  lemma TryOrElse<T>(p: Parser<T>, q: Parser<T>, s: seq<char>)
    ensures p(s).Done? ==> OrElse(Try(p), q)(s) == p(s)
    ensures p(s).Fail? ==> OrElse(Try(p), q)(s) == q(s)
  {
    TrySpec(p, s);
  }

  /** `string("ab") <|> string("ac")` on `ac`: the first branch consumes the
      `a` before it fails, so the second is not tried. */
  lemma AlternationCommits()
    ensures OrElse(Str("ab"), Str("ac"))("ac") == Fail("c", [], "satisfy")
  {
    StrSpec("ab", "ac");
    assert CommonPrefix("ab", "ac") == 1;
  }

  /** Under `try`, the same failure is moved back to the start and the
      second branch reads the whole input. */
  lemma TryBacktracks()
    ensures OrElse(Try(Str("ab")), Str("ac"))("ac") == Done("", "ac")
  {
    StrSpec("ab", "ac");
    StrSpec("ac", "ac");
  }

  /** `satisfy(pred)` consumes exactly the first character when `pred` holds
      of it, and otherwise fails with "satisfy" without consuming anything. */
  lemma SatisfySpec(pred: char -> bool, s: seq<char>)
    ensures Satisfy(pred)(s).Done? <==> |s| > 0 && pred(s[0])
    ensures Satisfy(pred)(s).Done? ==> Satisfy(pred)(s) == Done(s[1..], s[0])
    ensures Satisfy(pred)(s).Fail? ==> Satisfy(pred)(s) == Fail(s, [], "satisfy")
  {
  }

  /** The reply of `zeroOrOne(p)` at input `s`, given the reply `r` of `p` there. */
  function Opt<T>(s: seq<char>, r0: Reply<T>): (r: Reply<Option<T>>)
    ensures r0.Done? ==> r == Done(r0.remaining, Some(r0.output))
    ensures r0.Fail? && |r0.remaining| == |s| ==> r == Done(s, None)
    ensures r0.Fail? && |r0.remaining| != |s| ==> r == Fail(r0.remaining, r0.contexts, r0.message)
  {
    Alt(s, match r0
           case Done(rest, x) => Done(rest, Some(x))
           case Fail(rest, c, m) => Fail(rest, c, m),
        Done(s, None))
  }

  /** `zeroOrOne(p)`: an optional occurrence of `p`, that is
      `Some <^> p <|> pure(None)`. */
  function Optional<T>(p: Parser<T>): Parser<Option<T>>
  {
    s => Opt(s, p(s))
  }

  /** `zeroOrOne(p)` wraps a success of `p` in `Some`, is `None` consuming
      nothing where `p` fails without consuming, and otherwise propagates
      the failure of `p`. */
  lemma OptionalSpec<T>(p: Parser<T>, s: seq<char>)
    requires IsSuffix(p(s).remaining, s)
    ensures p(s).Done? ==> Optional(p)(s) == Done(p(s).remaining, Some(p(s).output))
    ensures p(s).Fail? && p(s).remaining == s ==> Optional(p)(s) == Done(s, None)
    ensures p(s).Fail? && p(s).remaining != s ==> Optional(p)(s) == Fail(p(s).remaining, p(s).contexts, p(s).message)
  {
  }

  // ---------------------------------------------------------------------------
  // Repetition

  /** Repeats `p` from `s` until it fails. A failure that consumed nothing ends
      the repetition successfully; one that consumed input is propagated. */
  function ManyAt<T>(p: Parser<T>, s: seq<char>): (r: Reply<seq<T>>)
    requires WellBehaved(p)
    ensures IsSuffix(r.remaining, s)
    decreases |s|
  {
    match p(s)
    case Fail(r, c, m) => if |r| == |s| then Done(s, []) else Fail(r, c, m)
    case Done(r, x) =>
      SuffixTransitive(ManyAt(p, r).remaining, r, s);
      match ManyAt(p, r)
      case Fail(r', c, m) => Fail(r', c, m)
      case Done(r', xs) => Done(r', [x] + xs)
  }

  function Many<T>(p: Parser<T>): Parser<seq<T>>
    requires WellBehaved(p)
  {
    s => ManyAt(p, s)
  }

  /** One or more occurrences of `p`. */
  function Many1<T>(p: Parser<T>): Parser<seq<T>>
    requires WellBehaved(p)
  {
    Map(Seq(p, Many(p)), (xxs: (T, seq<T>)) => [xxs.0] + xxs.1)
  }

  /** `many1(p)` fails where the first `p` fails, and otherwise is that
      output followed by the repetition of `p` on what it left. */
  lemma Many1Spec<T>(p: Parser<T>, s: seq<char>)
    requires WellBehaved(p)
    ensures Many1(p)(s) ==
      match p(s)
      case Fail(r, c, m) => Fail(r, c, m)
      case Done(r, x) =>
        match ManyAt(p, r)
        case Fail(r', c, m) => Fail(r', c, m)
        case Done(r', xs) => Done(r', [x] + xs)
  {
  }

  /** `xs` are the outputs of running `p` back to back from `s`, which leaves `r`. */
  ghost predicate Chain<T>(p: Parser<T>, s: seq<char>, xs: seq<T>, r: seq<char>)
    decreases |xs|
  {
    if xs == [] then r == s
    else p(s).Done? && p(s).output == xs[0] && Chain(p, p(s).remaining, xs[1..], r)
  }

  /** `many(p)` succeeds with `xs`, leaving `r`, exactly when `xs` are the
      outputs of successive runs of `p` that end at `r`, where `p` fails
      without consuming anything. */
  lemma {:induction false} ManyDone<T>(p: Parser<T>, s: seq<char>, xs: seq<T>, r: seq<char>)
    requires WellBehaved(p)
    ensures ManyAt(p, s) == Done(r, xs) <==>
      Chain(p, s, xs, r) && p(r).Fail? && p(r).remaining == r
    decreases |s|
  {
    var q := p(s);
    assert IsSuffix(q.remaining, s);
    if q.Done? {
      if xs != [] {
        ManyDone(p, q.remaining, xs[1..], r);
        assert [xs[0]] + xs[1..] == xs;
      }
    } else if xs != [] {
      assert !Chain(p, s, xs, r);
    }
  }

  // ---------------------------------------------------------------------------
  // Separated lists and white space

  /** `many(sep *> p)`: the elements after the first of a separated list. */
  function SepTail<T, S>(p: Parser<T>, sep: Parser<S>): Parser<seq<T>>
    requires WellBehaved(p) && Shrinking(sep)
  {
    ThenWellBehaved(sep, p);
    Many(Then(sep, p))
  }

  /** `sepBy1(p, sep)`: one `p`, then any number of `sep *> p`. */
  function SepBy1<T, S>(p: Parser<T>, sep: Parser<S>): Parser<seq<T>>
    requires WellBehaved(p) && Shrinking(sep)
  {
    Map(Seq(p, SepTail(p, sep)), (xxs: (T, seq<T>)) => [xxs.0] + xxs.1)
  }

  /** `sepBy(p, sep)`: zero or more `p` separated by `sep`. */
  function SepBy<T, S>(p: Parser<T>, sep: Parser<S>): Parser<seq<T>>
    requires WellBehaved(p) && Shrinking(sep)
  {
    OrElse(SepBy1(p, sep), Pure([]))
  }

  predicate IsSpace(c: char)
  {
    c == ' ' || c == '\t' || c == '\n' || c == '\r'
  }

  /** `s` with its leading white space removed. */
  function DropSpaces(s: seq<char>): (r: seq<char>)
    ensures IsSuffix(r, s)
    ensures forall i :: 0 <= i < |s| - |r| ==> IsSpace(s[i])
    ensures r == [] || !IsSpace(r[0])
  {
    if s != [] && IsSpace(s[0]) then DropSpaces(s[1..]) else s
  }

  /** Skips zero or more white-space characters; never fails. */
  function SkipSpaces(): Parser<()>
  {
    SatisfyWellBehaved(IsSpace);
    Map(Many(Satisfy(IsSpace)), (_: seq<char>) => ())
  }

  // ---------------------------------------------------------------------------
  // The combinators at one input

  /** `p *> q` fails where `p` fails, and otherwise replies as `q` does on what `p` left. */
  lemma ThenSpec<T, U>(p: Parser<T>, q: Parser<U>, s: seq<char>)
    ensures Then(p, q)(s) ==
      match p(s)
      case Fail(r, c, m) => Fail(r, c, m)
      case Done(r, _) => q(r)
  {
  }

  /** `p <* q` fails where `p` or then `q` fails, and otherwise keeps the output of `p`. */
  lemma SkipSpec<T, U>(p: Parser<T>, q: Parser<U>, s: seq<char>)
    ensures Skip(p, q)(s) ==
      match p(s)
      case Fail(r, c, m) => Fail(r, c, m)
      case Done(r, x) =>
        match q(r)
        case Fail(r', c, m) => Fail(r', c, m)
        case Done(r', _) => Done(r', x)
  {
  }

  /** The `many(sep *> p)` after the first element repeats until `sep *> p`
      fails without consuming; a failure that consumed input is propagated. */
  lemma SepTailSpec<T, S>(p: Parser<T>, sep: Parser<S>, s: seq<char>)
    requires WellBehaved(p) && Shrinking(sep)
    ensures SepTail(p, sep)(s) ==
      match sep(s)
      case Fail(r, c, m) => if |r| == |s| then Done(s, []) else Fail(r, c, m)
      case Done(s1, _) =>
        match p(s1)
        case Fail(r, c, m) => if |r| == |s| then Done(s, []) else Fail(r, c, m)
        case Done(s2, x) =>
          match SepTail(p, sep)(s2)
          case Fail(r, c, m) => Fail(r, c, m)
          case Done(s3, xs) => Done(s3, [x] + xs)
  {
    ThenWellBehaved(sep, p);
    ThenSpec(sep, p, s);
  }

  /** `sepBy(p, sep)` is the empty list, consuming nothing, exactly when the
      first `p` fails without consuming; otherwise it is `p` followed by the
      repetition of `sep *> p`. */
  lemma SepBySpec<T, S>(p: Parser<T>, sep: Parser<S>, s: seq<char>)
    requires WellBehaved(p) && Shrinking(sep)
    ensures SepBy(p, sep)(s) ==
      Alt(s,
        match p(s)
        case Fail(r, c, m) => Fail(r, c, m)
        case Done(s1, x) =>
          match SepTail(p, sep)(s1)
          case Fail(r, c, m) => Fail(r, c, m)
          case Done(s2, xs) => Done(s2, [x] + xs),
        Done(s, []))
  {
  }

  // ---------------------------------------------------------------------------
  // Well-behaved parsers

  lemma SatisfyWellBehaved(pred: char -> bool)
    ensures WellBehaved(Satisfy(pred))
  {
  }

  lemma {:induction false} SuffixTransitive(a: seq<char>, b: seq<char>, c: seq<char>)
    requires IsSuffix(a, b) && IsSuffix(b, c)
    ensures IsSuffix(a, c)
    decreases |c|
  {
    if b != c {
      SuffixTransitive(a, b, c[1..]);
    }
  }

  /** Dropping the first `k` characters leaves a suffix. */
  lemma {:induction false} DropIsSuffix(s: seq<char>, k: nat)
    requires k <= |s|
    ensures IsSuffix(s[k..], s)
    decreases k
  {
    if k > 0 {
      DropIsSuffix(s[1..], k - 1);
      assert s[1..][k - 1..] == s[k..];
    }
  }

  lemma MapShrinking<T, U>(p: Parser<T>, f: T -> U)
    requires Shrinking(p)
    ensures Shrinking(Map(p, f))
    ensures Advancing(p) ==> Advancing(Map(p, f))
  {
    forall s ensures IsSuffix(Map(p, f)(s).remaining, s) {
      assert Map(p, f)(s).remaining == p(s).remaining;
    }
  }

  lemma SeqShrinking<T, U>(p: Parser<T>, q: Parser<U>)
    requires Shrinking(p) && Shrinking(q)
    ensures Shrinking(Seq(p, q))
    ensures Advancing(p) || Advancing(q) ==> Advancing(Seq(p, q))
  {
    forall s ensures IsSuffix(Seq(p, q)(s).remaining, s) {
      var r := p(s);
      if r.Done? {
        SuffixTransitive(q(r.remaining).remaining, r.remaining, s);
      }
    }
  }

  lemma ThenWellBehaved<T, U>(p: Parser<T>, q: Parser<U>)
    requires Shrinking(p) && Shrinking(q)
    ensures Shrinking(Then(p, q)) && Shrinking(Skip(p, q))
    ensures Advancing(p) || Advancing(q) ==> Advancing(Then(p, q)) && Advancing(Skip(p, q))
  {
    SeqShrinking(p, q);
    MapShrinking(Seq(p, q), (xy: (T, U)) => xy.1);
    MapShrinking(Seq(p, q), (xy: (T, U)) => xy.0);
  }

  lemma OrElseShrinking<T>(p: Parser<T>, q: Parser<T>)
    requires Shrinking(p) && Shrinking(q)
    ensures Shrinking(OrElse(p, q))
    ensures Advancing(p) && Advancing(q) ==> Advancing(OrElse(p, q))
  {
  }

  lemma ManyShrinking<T>(p: Parser<T>)
    requires WellBehaved(p)
    ensures Shrinking(Many(p))
  {
  }

  /** `skipSpaces` succeeds on every input and leaves it with its leading
      white space removed. */
  lemma {:induction false} SkipSpacesSpec(s: seq<char>)
    ensures SkipSpaces()(s) == Done(DropSpaces(s), ())
    decreases |s|
  {
    SatisfyWellBehaved(IsSpace);
    if s != [] && IsSpace(s[0]) {
      SkipSpacesSpec(s[1..]);
      assert Satisfy(IsSpace)(s) == Done(s[1..], s[0]);
      assert ManyAt(Satisfy(IsSpace), s).Done?;
    } else {
      assert Satisfy(IsSpace)(s) == Fail(s, [], "satisfy");
    }
  }

  lemma SkipSpacesShrinking()
    ensures Shrinking(SkipSpaces())
  {
    forall s ensures IsSuffix(SkipSpaces()(s).remaining, s) {
      SkipSpacesSpec(s);
    }
  }
}
