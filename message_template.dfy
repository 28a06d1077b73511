/**
 * The part of java.text.MessageFormat that the identity-backend descriptor relies on:
 * a pattern is parsed into literal characters and numbered argument slots `{i}`, and
 * formatting substitutes string arguments into the slots.
 *
 * Parsing follows MessageFormat.applyPattern for patterns without format types:
 *  - outside braces, `''` is one literal quote and a lone `'` toggles quoting;
 *  - quoted text is literal, `{` included;
 *  - an unquoted `{` opens an argument that runs to the next `}` and must hold a
 *    decimal number no larger than Integer.MAX_VALUE, otherwise the pattern is illegal
 *    (MessageFormat throws IllegalArgumentException);
 *  - a `}` outside an argument is literal.
 * Formatting writes an argument whose number is not below the argument count as
 * `{number}`, the way MessageFormat.subformat does.
 */
module MessageTemplate {
  import opened Wrappers

  /** One element of a parsed pattern. */
  datatype Segment = Lit(c: char) | Arg(index: nat)

  /** Integer.MAX_VALUE: a larger argument number makes Integer.parseInt throw. */
  const MaxIndex: nat := 0x7fff_ffff

  predicate IsDigit(c: char) {
    '0' <= c <= '9'
  }

  predicate AllDigits(s: string) {
    forall i | 0 <= i < |s| :: IsDigit(s[i])
  }

  /** The value of a string of decimal digits, most significant digit first. */
  function DigitsValue(s: string): nat
    requires AllDigits(s)
  {
    if s == [] then 0 else DigitsValue(s[..|s| - 1]) * 10 + (s[|s| - 1] as int - '0' as int)
  }

  /** Decimal rendering of a number (Java's StringBuilder.append(int)). */
  function Decimal(n: nat): (s: string)
    ensures |s| > 0 && AllDigits(s)
    ensures DigitsValue(s) == n
  {
    if n < 10 then
      [('0' as int + n) as char]
    else
      var prefix := Decimal(n / 10);
      var s := prefix + [('0' as int + n % 10) as char];
      assert s[..|s| - 1] == prefix;
      s
  }

  /** The first position of `c` in `s`, if any. */
  function IndexOf(s: string, c: char): (r: Option<nat>)
    ensures r.Some? ==> r.value < |s| && s[r.value] == c && c !in s[..r.value]
    ensures r.None? ==> c !in s
  {
    if s == [] then None
    else if s[0] == c then Some(0)
    else
      match IndexOf(s[1..], c)
      case None => None
      case Some(k) =>
        assert s[..k + 1] == [s[0]] + s[1..][..k];
        Some(k + 1)
  }

  /** Text that Integer.parseInt accepts as a non-negative argument number. */
  predicate IsArgumentNumber(s: string) {
    |s| > 0 && AllDigits(s) && DigitsValue(s) <= MaxIndex
  }

  function Cons(s: Segment, rest: Option<seq<Segment>>): Option<seq<Segment>> {
    if rest.None? then None else Some([s] + rest.value)
  }

  /** Parses `p`; `quoted` says whether a quote is open. `None` is an illegal pattern. */
  function ParseFrom(p: string, quoted: bool): (r: Option<seq<Segment>>)
    decreases |p|
  {
    if p == [] then Some([])
    else if p[0] == '\'' then
      if |p| > 1 && p[1] == '\'' then Cons(Lit('\''), ParseFrom(p[2..], quoted))
      else ParseFrom(p[1..], !quoted)
    else if p[0] == '{' && !quoted then
      match IndexOf(p, '}')
      case None => None
      case Some(close) =>
        var number := p[1..close];
        if IsArgumentNumber(number) then Cons(Arg(DigitsValue(number)), ParseFrom(p[close + 1..], false))
        else None
    else Cons(Lit(p[0]), ParseFrom(p[1..], quoted))
  }

  /** The number of quote characters in `s`. */
  function Quotes(s: string): nat {
    multiset(s)['\'']
  }

  /**
   * Whether position `i` of `p` is outside quotes, when `p` starts with a quote open
   * exactly if `quoted`: every quote before it, paired or not, flips the state once.
   */
  predicate Unquoted(p: string, quoted: bool, i: nat)
    requires i <= |p|
  {
    (Quotes(p[..i]) % 2 == 1) == quoted
  }

  /** The `}` at `close` ends the argument opened at `i`, and what lies between is an argument number. */
  predicate ClosesArgument(p: string, i: nat, close: nat) {
    i < close < |p| && p[close] == '}' && '}' !in p[i + 1..close] && IsArgumentNumber(p[i + 1..close])
  }

  /** Some `}` closes a legal argument opened at `i`. */
  ghost predicate HasClose(p: string, i: nat) {
    exists close :: ClosesArgument(p, i, close)
  }

  /** An unquoted `{` at `i` that no `}` turns into a legal argument. */
  ghost predicate BadBrace(p: string, quoted: bool, i: nat)
    requires i < |p|
  {
    p[i] == '{' && Unquoted(p, quoted, i) && !HasClose(p, i)
  }

  /**
   * The patterns MessageFormat rejects, described on the text: some unquoted `{` has no
   * later `}`, or the text up to the first `}` is not a decimal number within Integer.MAX_VALUE.
   */
  ghost predicate IllegalFrom(p: string, quoted: bool) {
    exists i :: 0 <= i < |p| && BadBrace(p, quoted, i)
  }

  ghost predicate Illegal(p: string) {
    IllegalFrom(p, false)
  }

  /** An argument opened at `i` closes the same way after a prefix of `k <= i` characters is dropped. */
  lemma ClosesShift(p: string, k: nat, i: nat)
    requires k <= i < |p|
    ensures HasClose(p, i) <==> HasClose(p[k..], i - k)
  {
    var q := p[k..];
    var j := i - k;
    if c: nat :| ClosesArgument(p, i, c) {
      assert p[i + 1..c] == q[j + 1..c - k];
      assert ClosesArgument(q, j, c - k);
    }
    if c: nat :| ClosesArgument(q, j, c) {
      assert q[j + 1..c] == p[i + 1..c + k];
      assert ClosesArgument(p, i, c + k);
    }
  }

  /** A brace at `i >= k` is bad in `p` exactly when it is bad at `i - k` after the prefix is dropped. */
  lemma BadBraceShift(p: string, k: nat, quoted: bool, rest: bool, i: nat)
    requires k <= i < |p|
    requires rest == (quoted != (Quotes(p[..k]) % 2 == 1))
    ensures BadBrace(p, quoted, i) <==> BadBrace(p[k..], rest, i - k)
  {
    assert p[..i] == p[..k] + p[k..][..i - k];
    assert Quotes(p[..i]) == Quotes(p[..k]) + Quotes(p[k..][..i - k]);
    ClosesShift(p, k, i);
  }

  /** Dropping a prefix without a bad brace keeps exactly the bad braces of the rest. */
  lemma IllegalShift(p: string, k: nat, quoted: bool, rest: bool)
    requires k <= |p|
    requires forall i | 0 <= i < k :: !BadBrace(p, quoted, i)
    requires rest == (quoted != (Quotes(p[..k]) % 2 == 1))
    ensures IllegalFrom(p, quoted) <==> IllegalFrom(p[k..], rest)
  {
    if IllegalFrom(p, quoted) {
      var i :| 0 <= i < |p| && BadBrace(p, quoted, i);
      BadBraceShift(p, k, quoted, rest, i);
      assert BadBrace(p[k..], rest, i - k);
    }
    if IllegalFrom(p[k..], rest) {
      var j :| 0 <= j < |p[k..]| && BadBrace(p[k..], rest, j);
      BadBraceShift(p, k, quoted, rest, j + k);
      assert BadBrace(p, quoted, j + k);
    }
  }

  /** The parser fails exactly on the patterns `IllegalFrom` describes. */
  lemma {:induction false} ParseIllegal(p: string, quoted: bool)
    ensures ParseFrom(p, quoted).None? <==> IllegalFrom(p, quoted)
    decreases |p|
  {
    if p == [] {
    } else if p[0] == '\'' {
      if |p| > 1 && p[1] == '\'' {
        assert p[..2] == ['\'', '\''];
        IllegalShift(p, 2, quoted, quoted);
        ParseIllegal(p[2..], quoted);
      } else {
        assert p[..1] == ['\''];
        IllegalShift(p, 1, quoted, !quoted);
        ParseIllegal(p[1..], !quoted);
      }
    } else if p[0] == '{' && !quoted {
      assert p[..0] == [];
      match IndexOf(p, '}')
      case None =>
        assert BadBrace(p, quoted, 0);
      case Some(close) =>
        var number := p[1..close];
        assert forall j | 0 <= j < close :: p[j] != '}' by {
          forall j | 0 <= j < close ensures p[j] != '}' { assert p[j] == p[..close][j]; }
        }
        forall c: nat | ClosesArgument(p, 0, c) ensures c == close {
          forall j | 1 <= j < c ensures p[j] != '}' { assert p[j] == p[1..c][j - 1]; }
        }
        if IsArgumentNumber(number) {
          forall i | 0 < i < close + 1 ensures p[i] != '{' && p[i] != '\'' {
            if i < close { assert p[i] == number[i - 1]; }
          }
          assert ClosesArgument(p, 0, close);
          assert Quotes(p[..close + 1]) == 0 by {
            assert '\'' !in p[..close + 1];
          }
          IllegalShift(p, close + 1, quoted, false);
          ParseIllegal(p[close + 1..], false);
        } else {
          assert BadBrace(p, quoted, 0);
        }
    } else {
      assert p[..1] == [p[0]];
      IllegalShift(p, 1, quoted, quoted);
      ParseIllegal(p[1..], quoted);
    }
  }

  /** MessageFormat.applyPattern: `None` exactly for the illegal patterns. */
  function Parse(p: string): (r: Option<seq<Segment>>)
    ensures r.None? <==> Illegal(p)
  {
    ParseIllegal(p, false);
    ParseFrom(p, false)
  }

  function RenderOne(s: Segment, args: seq<string>): string {
    match s
    case Lit(c) => [c]
    case Arg(i) => if i < |args| then args[i] else "{" + Decimal(i) + "}"
  }

  /** Substitutes the arguments into a parsed pattern. */
  function Render(t: seq<Segment>, args: seq<string>): (r: string)
    ensures Slots(t) == {} ==> |r| == |t| && forall i | 0 <= i < |t| :: t[i].Lit? && r[i] == t[i].c
  {
    if t == [] then []
    else
      var rest := Render(t[1..], args);
      SlotsTail(t);
      assert Slots(t) == {} ==> forall i | 1 <= i < |t| :: t[i] == t[1..][i - 1];
      RenderOne(t[0], args) + rest
  }

  /** Substitution works segment by segment: a pattern split in two renders as its halves joined. */
  lemma {:induction false} RenderConcat(t1: seq<Segment>, t2: seq<Segment>, args: seq<string>)
    ensures Render(t1 + t2, args) == Render(t1, args) + Render(t2, args)
  {
    if t1 == [] {
      assert t1 + t2 == t2;
    } else {
      assert (t1 + t2)[1..] == t1[1..] + t2;
      RenderConcat(t1[1..], t2, args);
    }
  }

  /** Slot i takes the i-th argument; a slot with no argument is written back as `{i}`. */
  lemma RenderSlot(i: nat, args: seq<string>)
    ensures Render([Arg(i)], args) == (if i < |args| then args[i] else "{" + Decimal(i) + "}")
  {
  }

  /** A literal segment writes its own character, whatever the arguments. */
  lemma RenderLiteral(c: char, args: seq<string>)
    ensures Render([Lit(c)], args) == [c]
  {
  }

  /** MessageFormat.format(pattern, args): `None` where it throws IllegalArgumentException. */
  function Format(pattern: string, args: seq<string>): (r: Option<string>)
    ensures r.Some? <==> !Illegal(pattern)
    ensures r.Some? ==> r.value == Render(Parse(pattern).value, args)
  {
    match Parse(pattern)
    case None => None
    case Some(t) => Some(Render(t, args))
  }

  /** Indices of the argument slots a parsed pattern refers to. */
  function Slots(t: seq<Segment>): set<nat> {
    set i | 0 <= i < |t| && t[i].Arg? :: t[i].index
  }

  /** The slots of a pattern's tail are slots of the pattern, and so is its first segment's. */
  lemma SlotsTail(t: seq<Segment>)
    requires t != []
    ensures Slots(t[1..]) <= Slots(t)
    ensures t[0].Arg? ==> t[0].index in Slots(t)
  {
    forall i | i in Slots(t[1..]) ensures i in Slots(t) {
      var k :| 0 <= k < |t[1..]| && t[1..][k].Arg? && t[1..][k].index == i;
      assert t[k + 1] == t[1..][k];
    }
  }

  /**
   * Formatting reads only the arguments the pattern refers to: two argument lists of
   * the same length that agree on every referenced slot give the same text.
   */
  lemma {:induction false} RenderReadsOnlySlots(t: seq<Segment>, a: seq<string>, b: seq<string>)
    requires |a| == |b|
    requires forall i | i in Slots(t) && i < |a| :: a[i] == b[i]
    ensures Render(t, a) == Render(t, b)
  {
    if t != [] {
      SlotsTail(t);
      RenderReadsOnlySlots(t[1..], a, b);
    }
  }

  /** A segment the writer below can spell: no quote or brace literal, a parseable number. */
  predicate Spellable(s: Segment) {
    match s
    case Lit(c) => c != '\'' && c != '{'
    case Arg(i) => i <= MaxIndex
  }

  function SpellOne(s: Segment): string
    requires Spellable(s)
  {
    match s
    case Lit(c) => [c]
    case Arg(i) => "{" + Decimal(i) + "}"
  }

  /** Writes a parsed pattern back as pattern text. */
  function Spell(t: seq<Segment>): string
    requires forall i | 0 <= i < |t| :: Spellable(t[i])
  {
    if t == [] then [] else SpellOne(t[0]) + Spell(t[1..])
  }

  /** `IndexOf` finds the first occurrence. */
  lemma {:induction false} IndexOfFirst(s: string, c: char, k: nat)
    requires k < |s| && s[k] == c && c !in s[..k]
    ensures IndexOf(s, c) == Some(k)
  {
    if k > 0 {
      assert s[0] == s[..k][0];
      assert s[1..][..k - 1] == s[..k][1..];
      IndexOfFirst(s[1..], c, k - 1);
    }
  }

  lemma ArgumentParses(i: nat, rest: string)
    requires i <= MaxIndex
    ensures var p := "{" + Decimal(i) + "}" + rest;
            ParseFrom(p, false) == Cons(Arg(i), ParseFrom(rest, false))
  {
    var d := Decimal(i);
    var p := "{" + d + "}" + rest;
    var close := |d| + 1;
    assert '}' !in p[..close] by {
      forall k | 0 <= k < close ensures p[..close][k] != '}' {
        if k > 0 { assert p[k] == d[k - 1]; assert IsDigit(d[k - 1]); }
      }
    }
    IndexOfFirst(p, '}', close);
    assert p[1..close] == d;
    assert p[close + 1..] == rest;
  }

  /** Parsing undoes spelling: every spellable pattern survives a round trip. */
  lemma {:induction false} ParseSpell(t: seq<Segment>)
    requires forall i | 0 <= i < |t| :: Spellable(t[i])
    ensures Parse(Spell(t)) == Some(t)
  {
    if t != [] {
      var rest := Spell(t[1..]);
      ParseSpell(t[1..]);
      assert [t[0]] + t[1..] == t;
      match t[0]
      case Lit(c) =>
        var p := [c] + rest;
        assert Spell(t) == p;
        assert p[0] == c && p[1..] == rest;
      case Arg(i) =>
        assert Spell(t) == "{" + Decimal(i) + "}" + rest;
        ArgumentParses(i, rest);
    }
  }

  /** The literal-only parse of a text. */
  function Literals(s: string): (t: seq<Segment>)
    ensures |t| == |s| && forall i | 0 <= i < |s| :: t[i] == Lit(s[i])
  {
    if s == [] then [] else [Lit(s[0])] + Literals(s[1..])
  }

  /** A pattern with no quote and no brace formats to itself, whatever the arguments. */
  lemma {:induction false} PlainTextVerbatim(p: string, args: seq<string>)
    requires forall i | 0 <= i < |p| :: p[i] != '\'' && p[i] != '{'
    ensures Format(p, args) == Some(p)
  {
    var t := Literals(p);
    SpellLiterals(p);
    ParseSpell(t);
    RenderLiterals(p, args);
  }

  lemma {:induction false} SpellLiterals(p: string)
    requires forall i | 0 <= i < |p| :: p[i] != '\'' && p[i] != '{'
    ensures forall i | 0 <= i < |Literals(p)| :: Spellable(Literals(p)[i])
    ensures Spell(Literals(p)) == p
  {
    if p != [] {
      SpellLiterals(p[1..]);
      assert Literals(p)[1..] == Literals(p[1..]);
      assert [p[0]] + p[1..] == p;
    }
  }

  lemma {:induction false} RenderLiterals(p: string, args: seq<string>)
    ensures Render(Literals(p), args) == p
  {
    if p != [] {
      RenderLiterals(p[1..], args);
      assert Literals(p)[1..] == Literals(p[1..]);
      assert [p[0]] + p[1..] == p;
    }
  }
}
